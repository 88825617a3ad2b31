/** Invariants of the back end over every run, and what follows from them: register-level
    refinement of sequential execution, precise traps, and capture of the results that the
    E1 units do not hold. */
module PipeProofs {
  import opened PipeModel

  // ---------------------------------------------------------------- invariants

  /** Which stages may be occupied together. */
  predicate Ctl(s: State) {
    && (s.e1.live ==> s.e1.instr.WellFormed()) && (!s.e1.live ==> s.e1 == E1_EMPTY)
    && (s.e1.exc != NO_EXC ==> s.e1.instr.cls.Csr? || s.e1.instr.cls.Branch?)
    && (s.csrExcQ != NO_EXC ==> s.e1.live && s.e1.instr.cls.Csr?)
    && (s.e2.live ==> s.e2.instr.WellFormed() && (s.e2.exc == NO_EXC ==> s.e2.valid))
    && (!s.e2.live ==> !s.e2.valid && s.e2.exc == NO_EXC)
    && (IsMemE2(s) ==> s.e2.exc == NO_EXC)
    && (!s.wb.live ==> s.wb.exc == NO_EXC && !s.wb.valid)
    && (s.wb.live && s.wb.exc == NO_EXC ==> s.wb.valid && s.wb.rdValid == s.wb.instr.rdValid)
    && (s.wb.exc != NO_EXC ==> !s.wb.rdValid)
    && (s.squashQ <==> s.wb.exc != NO_EXC)
    && (s.squashQ || s.branchCsrQ || s.resetQ ==> !s.e1.live && !s.e2.live)
    && (s.branchCsrQ || s.resetQ ==> !s.wb.live)
  }

  /** Blocking operations: a divide or CSR access in E1 is alone with the memory pipe idle. */
  predicate Blocking(s: State) {
    && (s.div.DivBusy? <==> s.e1.live && s.e1.instr.cls.Div?)
    && (s.e1.live && s.e1.instr.cls.Div? ==> s.divPending || s.e2.exc != NO_EXC)
    && (s.e1.live && s.e1.instr.cls.Csr? ==> s.csrPending)
    && (s.e1.live && (s.e1.instr.cls.Div? || s.e1.instr.cls.Csr?) ==> !IsMemE2(s))
    && (s.e2.live && s.e2.instr.cls.Csr? ==> s.csrPending && !s.e1.live)
    && (s.wb.live && s.wb.instr.cls.Csr? ==> (s.csrPending || s.squashQ) && !s.e1.live && !s.e2.live)
  }

  predicate E2Waiting(c: Config, s: State) {
    s.slot == Request(AccessOf(c.u, s.e2.instr, s.e2.opA, s.e2.opB)) && !s.pending && !s.unalignedE2 && !IsMemE1(s)
  }
  predicate E2Pending(c: Config, s: State) {
    s.pending && !s.unalignedE2 && s.respQ == [AccessOf(c.u, s.e2.instr, s.e2.opA, s.e2.opB)] && (s.slot.Empty? || IsMemE1(s))
  }
  predicate E2Misaligned(c: Config, s: State) {
    s.unalignedE2 && s.respQ == [AccessOf(c.u, s.e2.instr, s.e2.opA, s.e2.opB)]
  }

  /** A squash by a trap that is not a memory fault, with an aligned load or store in E1: the
      pipeline drops the instruction but the load/store unit keeps its request. */
  predicate Leaks(s: State, i: In) {
    !Stall(s, i) && SquashNow(s, i) && !IsMemE2(s) && IsMemE1(s) && s.slot.Request?
  }

  /** Where the access of each load or store is while the instruction is in E1 or E2, and that
      no access is held for any other instruction. A misaligned access squashed in E1 still
      completes in the load/store unit, in the one clock in which nothing else can. */
  predicate Lsu(c: Config, s: State) {
    && |s.respQ| == (if s.pending then 1 else 0) + (if s.unalignedE2 then 1 else 0)
    && (s.unalignedE2 ==> !s.pending && s.slot.Empty?)
    && (IsMemE1(s) ==> !s.slot.Empty? && s.slot.acc == AccessOf(c.u, s.e1.instr, s.e1.opA, s.e1.opB)
                       && (s.slot.Unaligned? <==> c.u.unaligned(s.e1.instr, s.e1.opA)))
    && (IsMemE2(s) ==>
          && (E2Waiting(c, s) || E2Pending(c, s) || E2Misaligned(c, s))
          && (E2Misaligned(c, s) <==> c.u.unaligned(s.e2.instr, s.e2.opA)))
    && (IsMemE1(s) && !IsMemE2(s) ==> !s.pending && !s.unalignedE2)
    && (!IsMemE1(s) && !IsMemE2(s) ==> s.slot.Empty? && !s.pending && (s.unalignedE2 ==> s.squashQ))
    && (s.slot.Unaligned? ==> IsMemE1(s))
  }

  /** What every legal run keeps, leak or not. */
  predicate Control(s: State) { Ctl(s) && Blocking(s) }

  predicate Inv(c: Config, s: State) { Control(s) && Lsu(c, s) }

  // ---------------------------------------------------------------- preservation

  lemma CtlStep(c: Config, s: State, i: In)
    requires Control(s) && Legal(s, i)
    ensures Ctl(Next(c, s, i))
  {
    if Stall(s, i) {
      assert !Issue(c, s, i);
    }
  }

  lemma BlockingStep(c: Config, s: State, i: In)
    requires Control(s) && Legal(s, i)
    ensures Blocking(Next(c, s, i))
  {
  }

  lemma {:induction false} ControlStep(c: Config, s: State, i: In)
    requires Control(s) && Legal(s, i)
    ensures Control(Next(c, s, i))
  {
    CtlStep(c, s, i);
    BlockingStep(c, s, i);
  }

  lemma LsuStep(c: Config, s: State, i: In)
    requires Inv(c, s) && Legal(s, i) && !Leaks(s, i)
    ensures Lsu(c, Next(c, s, i))
  {
    if Stall(s, i) { LsuStalled(c, s, i); } else { LsuAdvances(c, s, i); }
  }

  lemma LsuStalled(c: Config, s: State, i: In)
    requires Inv(c, s) && Legal(s, i) && Stall(s, i)
    ensures Lsu(c, Next(c, s, i))
  {
  }

  lemma LsuAdvances(c: Config, s: State, i: In)
    requires Inv(c, s) && Legal(s, i) && !Leaks(s, i) && !Stall(s, i)
    ensures Lsu(c, Next(c, s, i))
  {
  }

  lemma {:induction false} InvStep(c: Config, s: State, i: In)
    requires Inv(c, s) && Legal(s, i) && !Leaks(s, i)
    ensures Inv(c, Next(c, s, i))
  {
    ControlStep(c, s, i);
    LsuStep(c, s, i);
  }

  // ---------------------------------------------------------------- data

  /** The register file once the instruction in WB has retired. */
  function AfterWB(u: Units, f: RegFile, w: WB, ext: Word): RegFile {
    if w.live && w.exc == NO_EXC then Exec(u, f, w.instr, ext) else f
  }

  function AfterE2(u: Units, f: RegFile, e: E2, ext: Word): RegFile {
    if e.live && e.exc == NO_EXC then Exec(u, f, e.instr, ext) else f
  }

  /** `v` is what a younger instruction must read from `r`: the result of E2 when E2 writes `r`
      (never a load, whose value is not there yet), and the register file `f` after WB otherwise. */
  predicate Reads(u: Units, f: RegFile, e: E2, ext: Word, r: Reg, v: Word) {
    if r != 0 && e.live && e.instr.rdValid && e.instr.rd == r then
      !e.instr.cls.Load? && v == Result(u, e.instr, e.opA, e.opB, ext)
    else v == f[r]
  }

  predicate GoodWB(u: Units, f: RegFile, w: WB, ext: Word) {
    w.live && (w.exc == NO_EXC || w.instr.IsMem()) ==>
      && w.opA == f[w.instr.ra] && w.opB == f[w.instr.rb]
      && (w.exc == NO_EXC && w.instr.rdValid ==> w.result == Result(u, w.instr, w.opA, w.opB, ext))
  }

  predicate GoodE2(u: Units, f: RegFile, e: E2, mul: Word, ext: Word) {
    e.live && e.exc == NO_EXC ==>
      && e.opA == f[e.instr.ra] && e.opB == f[e.instr.rb]
      && (e.instr.cls.Mul? ==> mul == Result(u, e.instr, e.opA, e.opB, ext))
      && (e.instr.cls.Alu? || e.instr.cls.Branch? || e.instr.cls.Div? || e.instr.cls.Csr? ==>
            e.result == Result(u, e.instr, e.opA, e.opB, ext))
  }

  /** The E1 result registers belong to the instruction in E1. */
  predicate UnitsE1(u: Units, s: State, ext: Word) {
    s.e1.live ==>
      && (s.e1.instr.cls.Alu? || s.e1.instr.cls.Branch? ==> s.aluQ == u.alu(s.e1.instr, s.e1.opA, s.e1.opB))
      && (s.e1.instr.cls.Mul? ==> s.mulE1 == MulOp(s.e1.instr, s.e1.opA, s.e1.opB))
      && (s.e1.instr.cls.Div? ==> s.div == DivBusy(u.div(s.e1.instr, s.e1.opA, s.e1.opB)))
      && (s.e1.instr.cls.Csr? ==> s.csrValueQ == ext)
  }

  lemma UnitsStep(c: Config, s: State, h: Hist, i: In)
    requires Control(s) && Legal(s, i) && UnitsE1(c.u, s, h.ext1)
    ensures UnitsE1(c.u, Next(c, s, i), NextHist(c, s, h, i).ext1)
  {
  }

  predicate GoodE1(u: Units, f: RegFile, e: E2, ext: Word, x: E1) {
    x.live && e.exc == NO_EXC ==> Reads(u, f, e, ext, x.instr.ra, x.opA) && Reads(u, f, e, ext, x.instr.rb, x.opB)
  }

  predicate Data(c: Config, s: State, h: Hist) {
    var f := AfterWB(c.u, s.regs, s.wb, h.extW);
    && GoodWB(c.u, s.regs, s.wb, h.extW)
    && GoodE2(c.u, f, s.e2, s.mulE2, h.ext2)
    && UnitsE1(c.u, s, h.ext1)
    && GoodE1(c.u, f, s.e2, h.ext2, s.e1)
  }

  lemma RegsStep(c: Config, s: State, h: Hist, i: In)
    requires Inv(c, s) && Legal(s, i) && GoodWB(c.u, s.regs, s.wb, h.extW)
    ensures Next(c, s, i).regs == if Stall(s, i) then s.regs else AfterWB(c.u, s.regs, s.wb, h.extW)
  {
  }

  /** The outside value the instruction leaving E2 takes with it. */
  function ExtLeavingE2(s: State, h: Hist, i: In): Word {
    if s.e2.live && s.e2.instr.cls.Load? then i.memData else h.ext2
  }

  /** The head of the response queue describes the load in E2, so the value it takes is the
      word memory returned for that very access. */
  lemma {:induction false} LoadTakesItsOwnWord(c: Config, s: State, i: In)
    requires Inv(c, s) && Legal(s, i)
    requires IsMemE2(s) && s.e2.instr.cls.Load? && !Stall(s, i) && !SquashNow(s, i)
    ensures s.respQ == [AccessOf(c.u, s.e2.instr, s.e2.opA, s.e2.opB)]
    ensures MemValue(c, s, i) == c.u.extract(s.e2.instr, c.u.address(s.e2.instr, s.e2.opA), i.memData)
  {
  }

  /** What WB receives is the result of the instruction that leaves E2. */
  lemma ResultLeavingE2(c: Config, s: State, h: Hist, f: RegFile, i: In)
    requires Inv(c, s) && Legal(s, i) && GoodE2(c.u, f, s.e2, s.mulE2, h.ext2)
    requires !Stall(s, i) && !SquashNow(s, i) && s.e2.live && s.e2.instr.rdValid
    ensures NextWB(c, s, i).result == Result(c.u, s.e2.instr, s.e2.opA, s.e2.opB, ExtLeavingE2(s, h, i))
    ensures RdE2(s, i) != 0 && !Blocked(c, s, i, RdE2(s, i)) ==> ResultE2(c, s, i) == NextWB(c, s, i).result
  {
    if s.e2.instr.cls.Load? {
      LoadTakesItsOwnWord(c, s, i);
    }
  }

  lemma WBStep(c: Config, s: State, h: Hist, f: RegFile, i: In)
    requires Inv(c, s) && Legal(s, i) && GoodE2(c.u, f, s.e2, s.mulE2, h.ext2) && !Stall(s, i)
    ensures GoodWB(c.u, f, NextWB(c, s, i), ExtLeavingE2(s, h, i))
    ensures !SquashNow(s, i) ==>
              AfterWB(c.u, f, NextWB(c, s, i), ExtLeavingE2(s, h, i)) == AfterE2(c.u, f, s.e2, ExtLeavingE2(s, h, i))
  {
    if !SquashNow(s, i) && s.e2.live && s.e2.instr.rdValid {
      ResultLeavingE2(c, s, h, f, i);
    }
  }

  /** An operand that is right before E2 retires is the register file after E2 has retired. */
  lemma ReadsAfterRetire(u: Units, f: RegFile, e: E2, mul: Word, ext2: Word, ext: Word, r: Reg, v: Word)
    requires GoodE2(u, f, e, mul, ext2) && Reads(u, f, e, ext2, r, v)
    requires e.live ==> e.instr.WellFormed()
    requires e.exc == NO_EXC && (e.live && !e.instr.cls.Load? ==> ext == ext2)
    ensures v == AfterE2(u, f, e, ext)[r]
  {
  }

  /** What the instruction advancing from E1 brings to E2. */
  lemma AdvanceToE2(c: Config, s: State, h: Hist, i: In)
    requires Inv(c, s) && Legal(s, i) && !Stall(s, i) && UnitsE1(c.u, s, h.ext1)
    requires NextE2(s, i).live
    ensures s.e1.live && s.e2.exc == NO_EXC && !SquashNow(s, i)
    ensures var e := NextE2(s, i);
            && e.instr == s.e1.instr && e.opA == s.e1.opA && e.opB == s.e1.opB
            && (e.instr.cls.Mul? ==> Next(c, s, i).mulE2 == Result(c.u, e.instr, e.opA, e.opB, h.ext1))
            && (e.instr.cls.Alu? || e.instr.cls.Branch? || e.instr.cls.Div? || e.instr.cls.Csr? ==>
                  e.result == Result(c.u, e.instr, e.opA, e.opB, h.ext1))
  {
  }

  lemma E2Step(c: Config, s: State, h: Hist, f: RegFile, f': RegFile, i: In)
    requires Inv(c, s) && Legal(s, i) && !Stall(s, i)
    requires GoodE2(c.u, f, s.e2, s.mulE2, h.ext2) && GoodE1(c.u, f, s.e2, h.ext2, s.e1) && UnitsE1(c.u, s, h.ext1)
    requires !SquashNow(s, i) ==> f' == AfterE2(c.u, f, s.e2, ExtLeavingE2(s, h, i))
    ensures GoodE2(c.u, f', NextE2(s, i), Next(c, s, i).mulE2, h.ext1)
  {
    if NextE2(s, i).live {
      AdvanceToE2(c, s, h, i);
      ReadsAfterRetire(c.u, f, s.e2, s.mulE2, h.ext2, ExtLeavingE2(s, h, i), s.e1.instr.ra, s.e1.opA);
      ReadsAfterRetire(c.u, f, s.e2, s.mulE2, h.ext2, ExtLeavingE2(s, h, i), s.e1.instr.rb, s.e1.opB);
    }
  }

  /** Only an ALU operation or a branch can be in E1 when a younger instruction that reads its
      destination issues: the scoreboard and the pending flags block every other class. */
  lemma {:induction false} E1ForwardsOnlyAlu(c: Config, s: State, i: In)
    requires Inv(c, s) && Legal(s, i) && Issue(c, s, i)
    requires RdE1(s) != 0 && RdE1(s) in {i.instr.ra, i.instr.rb}
    ensures s.e1.instr.cls.Alu? || s.e1.instr.cls.Branch?
  {
  }

  /** An operand that E1 does not forward is the register file after E2 has retired. */
  lemma OlderThanE1(c: Config, s: State, h: Hist, f: RegFile, i: In, r: Reg)
    requires Inv(c, s) && Legal(s, i) && Issue(c, s, i) && r in {i.instr.ra, i.instr.rb}
    requires GoodWB(c.u, s.regs, s.wb, h.extW) && f == AfterWB(c.u, s.regs, s.wb, h.extW)
    requires GoodE2(c.u, f, s.e2, s.mulE2, h.ext2)
    requires r != 0 && RdE1(s) != r
    ensures Operand(c, s, i, r) == AfterE2(c.u, f, s.e2, ExtLeavingE2(s, h, i))[r]
  {
    if RdE2(s, i) == r {
      ResultLeavingE2(c, s, h, f, i);
    } else {
      assert Operand(c, s, i, r) == f[r];
    }
  }

  /** Forwarding is right: an operand captured at issue is the register file as every older
      instruction leaves it. */
  lemma {:induction false} OperandIsArchitectural(c: Config, s: State, h: Hist, f: RegFile, f': RegFile, i: In, r: Reg)
    requires Inv(c, s) && Legal(s, i) && Issue(c, s, i) && r in {i.instr.ra, i.instr.rb}
    requires GoodWB(c.u, s.regs, s.wb, h.extW) && f == AfterWB(c.u, s.regs, s.wb, h.extW)
    requires GoodE2(c.u, f, s.e2, s.mulE2, h.ext2) && UnitsE1(c.u, s, h.ext1)
    requires f' == AfterE2(c.u, f, s.e2, ExtLeavingE2(s, h, i))
    ensures Reads(c.u, f', NextE2(s, i), h.ext1, r, Operand(c, s, i, r))
  {
    var e := NextE2(s, i);
    assert e.live == s.e1.live && e.instr == s.e1.instr && e.opA == s.e1.opA && e.opB == s.e1.opB;
    if r != 0 && RdE1(s) == r {
      E1ForwardsOnlyAlu(c, s, i);
    } else if r != 0 {
      OlderThanE1(c, s, h, f, i, r);
    }
  }

  lemma DataStep(c: Config, s: State, h: Hist, i: In)
    requires Inv(c, s) && Legal(s, i) && Data(c, s, h)
    ensures Data(c, Next(c, s, i), NextHist(c, s, h, i))
  {
    var f := AfterWB(c.u, s.regs, s.wb, h.extW);
    RegsStep(c, s, h, i);
    UnitsStep(c, s, h, i);
    if !Stall(s, i) {
      WBStep(c, s, h, f, i);
      var f' := AfterWB(c.u, f, NextWB(c, s, i), ExtLeavingE2(s, h, i));
      E2Step(c, s, h, f, f', i);
      if Issue(c, s, i) {
        OperandIsArchitectural(c, s, h, f, f', i, i.instr.ra);
        OperandIsArchitectural(c, s, h, f, f', i, i.instr.rb);
      }
    }
  }

  // ---------------------------------------------------------------- history

  function AccessWB(u: Units, w: WB): seq<Access> {
    if w.live && w.instr.IsMem() && w.exc != EXC_MISALIGNED_LOAD && w.exc != EXC_MISALIGNED_STORE
    then [AccessOf(u, w.instr, w.opA, w.opB)] else []
  }

  function AccessE2(u: Units, s: State): seq<Access> {
    if IsMemE2(s) && s.pending then [AccessOf(u, s.e2.instr, s.e2.opA, s.e2.opB)] else []
  }

  predicate SquashedOnlyAfterTrap(os: seq<Outcome>) {
    forall k :: 0 <= k < |os| && os[k].Squashed? ==> k > 0 && os[k - 1].Trap?
  }

  /** Every issued instruction has exactly one outcome or is still in flight, in issue order. */
  predicate Ordered(s: State, h: Hist) { h.issued == Instrs(h.outcomes) + InFlight(s.wb, h.doomed, s.e2, s.e1) }

  /** The register file is the one sequential execution of the committed instructions leaves. */
  predicate Refines(c: Config, s: State, h: Hist) { s.regs == ExecAll(c.u, ZERO_REGS, h.outcomes) }

  /** Memory has accepted the accesses of sequential execution, in order, and nothing else. */
  predicate MemRefines(c: Config, s: State, h: Hist) {
    h.accesses == AccessAll(c.u, ZERO_REGS, h.outcomes) + AccessWB(c.u, s.wb) + AccessE2(c.u, s)
  }

  predicate TrapShape(s: State, h: Hist) {
    && SquashedOnlyAfterTrap(h.outcomes)
    && (h.doomed != [] ==> s.squashQ && |h.doomed| == 1)
  }

  predicate OrderOk(s: State, h: Hist) { Ordered(s, h) && TrapShape(s, h) }

  predicate HistOk(c: Config, s: State, h: Hist) { Refines(c, s, h) && MemRefines(c, s, h) }

  lemma Snoc(u: Units, f: RegFile, os: seq<Outcome>, o: Outcome)
    ensures ExecAll(u, f, os + [o]) == ExecOutcome(u, ExecAll(u, f, os), o)
    ensures AccessAll(u, f, os + [o]) == AccessAll(u, f, os) + AccessBy(u, ExecAll(u, f, os), o)
    ensures Instrs(os + [o]) == Instrs(os) + [o.instr]
  {
    assert (os + [o])[..|os|] == os;
  }

  lemma OutcomeExecutes(u: Units, f: RegFile, w: WB, ext: Word)
    requires GoodWB(u, f, w, ext) && w.live
    ensures ExecOutcome(u, f, OutcomeOfWB(w, ext)) == AfterWB(u, f, w, ext)
    ensures AccessBy(u, f, OutcomeOfWB(w, ext)) == AccessWB(u, w)
  {
  }

  lemma SquashedChangeNothing(u: Units, os: seq<Outcome>, q: seq<Instr>)
    requires |q| <= 1 && SquashedOnlyAfterTrap(os) && (q != [] ==> os != [] && os[|os| - 1].Trap?)
    ensures var os' := os + SquashAll(q);
            && ExecAll(u, ZERO_REGS, os') == ExecAll(u, ZERO_REGS, os)
            && AccessAll(u, ZERO_REGS, os') == AccessAll(u, ZERO_REGS, os)
            && Instrs(os') == Instrs(os) + q && SquashedOnlyAfterTrap(os')
  {
    if q == [] {
      assert os + SquashAll(q) == os;
    } else {
      Snoc(u, ZERO_REGS, os, Squashed(q[0]));
      assert SquashAll(q) == [Squashed(q[0])];
    }
  }

  lemma RetireWB(u: Units, os: seq<Outcome>, f: RegFile, w: WB, ext: Word)
    requires GoodWB(u, f, w, ext) && f == ExecAll(u, ZERO_REGS, os) && w.live
    ensures var os' := os + [OutcomeOfWB(w, ext)];
            && ExecAll(u, ZERO_REGS, os') == AfterWB(u, f, w, ext)
            && AccessAll(u, ZERO_REGS, os') == AccessAll(u, ZERO_REGS, os) + AccessWB(u, w)
  {
    OutcomeExecutes(u, f, w, ext);
    Snoc(u, ZERO_REGS, os, OutcomeOfWB(w, ext));
  }

  lemma ShapeExtends(os: seq<Outcome>, o: Outcome)
    requires SquashedOnlyAfterTrap(os) && !o.Squashed?
    ensures SquashedOnlyAfterTrap(os + [o])
  {
  }

  /** What one cycle adds to the sequential machine. */
  lemma RetireStep(u: Units, os: seq<Outcome>, f: RegFile, w: WB, ext: Word, q: seq<Instr>)
    requires GoodWB(u, f, w, ext) && f == ExecAll(u, ZERO_REGS, os)
    requires SquashedOnlyAfterTrap(os) && |q| <= 1 && (q != [] ==> w.live && w.exc != NO_EXC)
    ensures ExecAll(u, ZERO_REGS, os + Retire(w, ext, q)) == AfterWB(u, f, w, ext)
    ensures AccessAll(u, ZERO_REGS, os + Retire(w, ext, q)) == AccessAll(u, ZERO_REGS, os) + AccessWB(u, w)
  {
    hide Instrs;
    if w.live {
      var mid := os + [OutcomeOfWB(w, ext)];
      RetireWB(u, os, f, w, ext);
      ShapeExtends(os, OutcomeOfWB(w, ext));
      SquashedChangeNothing(u, mid, q);
      assert os + Retire(w, ext, q) == mid + SquashAll(q);
    } else {
      assert os + Retire(w, ext, q) == os;
    }
  }

  /** What one cycle adds to the order, whatever the values are. */
  lemma RetireOrder(u: Units, os: seq<Outcome>, w: WB, ext: Word, q: seq<Instr>)
    requires SquashedOnlyAfterTrap(os) && |q| <= 1 && (q != [] ==> w.live && w.exc != NO_EXC)
    ensures Instrs(os + Retire(w, ext, q)) == Instrs(os) + One(w.live, w.instr) + q
    ensures SquashedOnlyAfterTrap(os + Retire(w, ext, q))
  {
    if w.live {
      var mid := os + [OutcomeOfWB(w, ext)];
      Snoc(u, ZERO_REGS, os, OutcomeOfWB(w, ext));
      ShapeExtends(os, OutcomeOfWB(w, ext));
      SquashedChangeNothing(u, mid, q);
      assert os + Retire(w, ext, q) == mid + SquashAll(q);
    } else {
      assert os + Retire(w, ext, q) == os;
    }
  }

  /** A request memory accepts belongs to the instruction that is in E2 after the edge. */
  lemma AcceptedBelongsToE2(c: Config, s: State, i: In)
    requires Inv(c, s) && Legal(s, i) && !Leaks(s, i)
    ensures var acc := if Requesting(s, i) && i.memAccept then [s.slot.acc] else [];
            if Stall(s, i) then AccessE2(c.u, Next(c, s, i)) == AccessE2(c.u, s) + acc
            else AccessWB(c.u, NextWB(c, s, i)) + AccessE2(c.u, Next(c, s, i)) == AccessE2(c.u, s) + acc
  {
  }

  /** How the stages move when the pipeline is not stalled. */
  lemma StagesAdvance(c: Config, s: State, i: In)
    requires Ctl(s) && Legal(s, i) && !Stall(s, i)
    ensures var (e1, e2, w) := (NextE1(c, s, i), NextE2(s, i), NextWB(c, s, i));
            && w.live == s.e2.live && w.instr == s.e2.instr
            && One(Squash(s, i) && s.e1.live, s.e1.instr) + One(e2.live, e2.instr) == One(s.e1.live, s.e1.instr)
            && e1.live == Issue(c, s, i) && (e1.live ==> e1.instr == i.instr)
            && (Squash(s, i) && s.e1.live ==> SquashNow(s, i))
  {
  }

  /** No instruction is lost, duplicated or reordered by a clock edge. */
  lemma InFlightAdvances(w: WB, q: seq<Instr>, e2: E2, e1: E1, w': WB, q': seq<Instr>, e2': E2, e1': E1, added: seq<Instr>)
    requires One(w'.live, w'.instr) == One(e2.live, e2.instr)
    requires q' + One(e2'.live, e2'.instr) == One(e1.live, e1.instr)
    requires One(e1'.live, e1'.instr) == added
    ensures (One(w.live, w.instr) + q) + InFlight(w', q', e2', e1') == InFlight(w, q, e2, e1) + added
  {
    var x, x' := One(w'.live, w'.instr), One(e2'.live, e2'.instr);
    assert x + q' + x' == x + (q' + x');
  }

  /** Moving the front of a queue to the end of a log keeps log ++ queue. */
  lemma Conserve<T>(total: seq<T>, past: seq<T>, queue: seq<T>, moved: seq<T>, queue': seq<T>, added: seq<T>)
    requires total == past + queue && moved + queue' == queue + added
    ensures total + added == (past + moved) + queue'
  {
    assert total + added == past + (queue + added);
    assert past + (moved + queue') == (past + moved) + queue';
  }

  lemma MemRefinesAdvances(c: Config, s: State, h: Hist, i: In)
    requires Inv(c, s) && Legal(s, i) && !Leaks(s, i) && MemRefines(c, s, h) && !Stall(s, i)
    requires AccessAll(c.u, ZERO_REGS, NextHist(c, s, h, i).outcomes)
             == AccessAll(c.u, ZERO_REGS, h.outcomes) + AccessWB(c.u, s.wb)
    ensures MemRefines(c, Next(c, s, i), NextHist(c, s, h, i))
  {
    var past := AccessAll(c.u, ZERO_REGS, h.outcomes);
    var acc := if Requesting(s, i) && i.memAccept then [s.slot.acc] else [];
    AcceptedBelongsToE2(c, s, i);
    Conserve(h.accesses, past + AccessWB(c.u, s.wb), AccessE2(c.u, s), [],
             AccessWB(c.u, NextWB(c, s, i)) + AccessE2(c.u, Next(c, s, i)), acc);
  }

  lemma OrderedAdvances(c: Config, s: State, h: Hist, i: In)
    requires Ctl(s) && Legal(s, i) && Ordered(s, h) && !Stall(s, i)
    requires Instrs(NextHist(c, s, h, i).outcomes) == Instrs(h.outcomes) + One(s.wb.live, s.wb.instr) + h.doomed
    ensures Ordered(Next(c, s, i), NextHist(c, s, h, i))
  {
    hide NextE1, NextE2, NextWB, Stall, Squash, Issue, NextSlot, NextResp, Ctl, Legal, Instrs;
    StagesAdvance(c, s, i);
    var q' := One(Squash(s, i) && s.e1.live, s.e1.instr);
    var added := One(Issue(c, s, i), i.instr);
    var (e1', e2', w') := (NextE1(c, s, i), NextE2(s, i), NextWB(c, s, i));
    InFlightAdvances(s.wb, h.doomed, s.e2, s.e1, w', q', e2', e1', added);
    Conserve(h.issued, Instrs(h.outcomes), InFlight(s.wb, h.doomed, s.e2, s.e1), One(s.wb.live, s.wb.instr) + h.doomed,
             InFlight(w', q', e2', e1'), added);
    assert Instrs(h.outcomes) + (One(s.wb.live, s.wb.instr) + h.doomed)
        == Instrs(h.outcomes) + One(s.wb.live, s.wb.instr) + h.doomed;
  }

  lemma OrderStep(c: Config, s: State, h: Hist, i: In)
    requires Control(s) && Legal(s, i) && OrderOk(s, h)
    ensures OrderOk(Next(c, s, i), NextHist(c, s, h, i))
  {
    if !Stall(s, i) {
      RetireOrder(c.u, h.outcomes, s.wb, h.extW, h.doomed);
      OrderedAdvances(c, s, h, i);
      StagesAdvance(c, s, i);
    }
  }

  lemma HistAdvances(c: Config, s: State, h: Hist, i: In)
    requires Inv(c, s) && Legal(s, i) && !Leaks(s, i) && Data(c, s, h) && TrapShape(s, h) && HistOk(c, s, h) && !Stall(s, i)
    ensures HistOk(c, Next(c, s, i), NextHist(c, s, h, i))
  {
    RetireStep(c.u, h.outcomes, s.regs, s.wb, h.extW, h.doomed);
    MemRefinesAdvances(c, s, h, i);
    RegsStep(c, s, h, i);
  }

  lemma HistStep(c: Config, s: State, h: Hist, i: In)
    requires Inv(c, s) && Legal(s, i) && !Leaks(s, i) && Data(c, s, h) && TrapShape(s, h) && HistOk(c, s, h)
    ensures HistOk(c, Next(c, s, i), NextHist(c, s, h, i))
  {
    if Stall(s, i) {
      AcceptedBelongsToE2(c, s, i);
    } else {
      HistAdvances(c, s, h, i);
    }
  }
}
