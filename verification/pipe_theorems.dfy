/** What holds of the back end in every run, from the invariants of `PipeProofs`. */
module PipeTheorems {
  import opened PipeModel
  import opened PipeProofs

  // ---------------------------------------------------------------- every run

  lemma {:induction false} ControlReachable(c: Config, ins: seq<In>)
    requires LegalRun(c, ins)
    ensures var (s, h) := (After(c, ins).s, After(c, ins).h); Control(s) && UnitsE1(c.u, s, h.ext1) && OrderOk(s, h)
  {
    if ins != [] {
      var front, i := ins[..|ins| - 1], ins[|ins| - 1];
      ControlReachable(c, front);
      var r := After(c, front);
      ControlStep(c, r.s, i);
      UnitsStep(c, r.s, r.h, i);
      OrderStep(c, r.s, r.h, i);
    }
  }

  /** After any run every issued instruction has committed, trapped or been squashed exactly once
      and in issue order, or is still in WB, E2 or E1; and only the instruction directly behind a
      trap is ever squashed. */
  lemma {:induction false} EachInstructionOnceInOrder(c: Config, ins: seq<In>)
    requires LegalRun(c, ins)
    ensures var (s, h) := (After(c, ins).s, After(c, ins).h);
            h.issued == Instrs(h.outcomes) + InFlight(s.wb, h.doomed, s.e2, s.e1) && SquashedOnlyAfterTrap(h.outcomes)
  {
    ControlReachable(c, ins);
  }

  /** The CSR result registers live one cycle and the divider's completion is a one-cycle pulse;
      E2 takes both at that very edge, because no load or store in E2 can stall it. */
  lemma UnheldResultsAreCaptured(c: Config, ins: seq<In>, i: In)
    requires LegalRun(c, ins) && Legal(After(c, ins).s, i)
    ensures var (s, h) := (After(c, ins).s, After(c, ins).h);
            s.e1.live && (s.e1.instr.cls.Csr? || s.e1.instr.cls.Div?) ==>
              && !IsMemE2(s)
              && (Stall(s, i) <==> s.e1.instr.cls.Div? && !i.divDone)
              && (!Stall(s, i) && !Squash(s, i) ==>
                    var e := NextE2(s, i);
                    && e.instr == s.e1.instr
                    && (s.e1.instr.cls.Csr? ==> e.result == h.ext1 && (s.e1.exc == NO_EXC ==> e.exc == s.csrExcQ))
                    && (s.e1.instr.cls.Div? ==> e.result == c.u.div(s.e1.instr, s.e1.opA, s.e1.opB)))
  {
    ControlReachable(c, ins);
  }

  // ---------------------------------------------------------------- refinement

  /** No cycle of the run squashes an aligned load or store behind a trap that is not a memory fault. */
  predicate LeakFree(c: Config, ins: seq<In>) {
    ins == [] || (LeakFree(c, ins[..|ins| - 1]) && !Leaks(After(c, ins[..|ins| - 1]).s, ins[|ins| - 1]))
  }

  /** At a leak of the run, or at some clock after one, memory accepts. */
  predicate OrphanAccepted(c: Config, ins: seq<In>) {
    ins != [] && (OrphanAccepted(c, ins[..|ins| - 1]) || (ins[|ins| - 1].memAccept && !LeakFree(c, ins)))
  }

  predicate RunInv(c: Config, r: Run) { Inv(c, r.s) && Data(c, r.s, r.h) && OrderOk(r.s, r.h) && HistOk(c, r.s, r.h) }

  /** The load/store unit presents an access of no instruction, and nothing can issue past it. */
  predicate Orphaned(s: State) {
    && Control(s) && !s.e1.live && !s.e2.live
    && s.slot.Request? && !s.pending && !s.unalignedE2
    && (s.wb.live ==> s.wb.exc != NO_EXC && !s.wb.instr.IsMem())
  }

  lemma {:induction false} Reachable(c: Config, ins: seq<In>)
    requires LegalRun(c, ins) && LeakFree(c, ins)
    ensures RunInv(c, After(c, ins))
  {
    if ins != [] {
      var front, i := ins[..|ins| - 1], ins[|ins| - 1];
      Reachable(c, front);
      var r := After(c, front);
      InvStep(c, r.s, i);
      DataStep(c, r.s, r.h, i);
      OrderStep(c, r.s, r.h, i);
      HistStep(c, r.s, r.h, i);
    }
  }

  /** A leak leaves the machine with an orphan, which stays, harmless, until memory accepts it;
      the clock in which memory accepts it breaks the correspondence of the accesses. */
  lemma OrphanStep(c: Config, r: Run, i: In)
    requires Legal(r.s, i) && OrderOk(r.s, r.h) && HistOk(c, r.s, r.h)
    requires Orphaned(r.s) || (Leaks(r.s, i) && Inv(c, r.s) && Data(c, r.s, r.h))
    ensures var r' := StepRun(c, r, i);
            if i.memAccept then !MemRefines(c, r'.s, r'.h) else Orphaned(r'.s) && HistOk(c, r'.s, r'.h)
  {
    var (s, h) := (r.s, r.h);
    ControlStep(c, s, i);
    RetireStep(c.u, h.outcomes, s.regs, s.wb, h.extW, h.doomed);
    if Leaks(s, i) {
      RegsStep(c, s, h, i);
    }
    OrphanAccesses(c, s, i);
  }

  /** No instruction stands for the access: those in E2 and WB after the edge have none. */
  lemma OrphanAccesses(c: Config, s: State, i: In)
    requires Legal(s, i) && (Orphaned(s) || (Leaks(s, i) && Inv(c, s)))
    ensures Requesting(s, i) && !Stall(s, i) && AccessE2(c.u, s) == []
    ensures AccessWB(c.u, NextWB(c, s, i)) == [] && AccessE2(c.u, Next(c, s, i)) == []
    ensures !i.memAccept && Control(Next(c, s, i)) ==> Orphaned(Next(c, s, i))
    ensures Orphaned(s) ==> Next(c, s, i).regs == s.regs
  {
  }

  lemma {:induction false} ReachableUnlessAccepted(c: Config, ins: seq<In>)
    requires LegalRun(c, ins) && !OrphanAccepted(c, ins)
    ensures var r := After(c, ins);
            if LeakFree(c, ins) then RunInv(c, r) else Orphaned(r.s) && HistOk(c, r.s, r.h)
  {
    if LeakFree(c, ins) {
      Reachable(c, ins);
    } else {
      var front, i := ins[..|ins| - 1], ins[|ins| - 1];
      ReachableUnlessAccepted(c, front);
      ControlReachable(c, front);
      OrphanStep(c, After(c, front), i);
    }
  }

  /** The back end refines one-at-a-time execution: after any run in which memory accepts no
      orphan, for all four bypass settings, the register file and the stream of memory accesses
      are those of executing the committed instructions in order. */
  lemma {:induction false} RefinesSequentialExecution(c: Config, ins: seq<In>)
    requires LegalRun(c, ins) && !OrphanAccepted(c, ins)
    ensures var (s, h) := (After(c, ins).s, After(c, ins).h);
            && s.regs == ExecAll(c.u, ZERO_REGS, h.outcomes)
            && h.accesses == AccessAll(c.u, ZERO_REGS, h.outcomes) + AccessWB(c.u, s.wb) + AccessE2(c.u, s)
  {
    ReachableUnlessAccepted(c, ins);
  }

  predicate AccessesRefine(c: Config, ins: seq<In>) { MemRefines(c, After(c, ins).s, After(c, ins).h) }

  /** The premise is exact: the accesses are those of sequential execution throughout a run if and
      only if memory accepts nothing at a leak or after it. */
  lemma {:induction false} RefinesIffNoOrphanAccepted(c: Config, ins: seq<In>)
    requires LegalRun(c, ins)
    ensures (forall k :: 0 <= k <= |ins| ==> AccessesRefine(c, ins[..k])) <==> !OrphanAccepted(c, ins)
  {
    if OrphanAccepted(c, ins) {
      var k := AcceptingClock(c, ins);
      assert !AccessesRefine(c, ins[..k]);
    } else {
      forall k | 0 <= k <= |ins| ensures AccessesRefine(c, ins[..k]) {
        PrefixOfRun(c, ins, k);
        ReachableUnlessAccepted(c, ins[..k]);
      }
    }
  }

  /** The clock at which memory accepts the orphan is the first one whose accesses are wrong. */
  lemma {:induction false} AcceptingClock(c: Config, ins: seq<In>) returns (k: nat)
    requires LegalRun(c, ins) && OrphanAccepted(c, ins)
    ensures 0 < k <= |ins| && ins[k - 1].memAccept && !OrphanAccepted(c, ins[..k - 1]) && !LeakFree(c, ins[..k])
    ensures !AccessesRefine(c, ins[..k])
  {
    hide StepRun, Leaks, Orphaned, RunInv, HistOk, MemRefines, OrderOk, Control, Legal;
    var front, i := ins[..|ins| - 1], ins[|ins| - 1];
    if OrphanAccepted(c, front) {
      k := AcceptingClock(c, front);
      assert front[..k] == ins[..k] && front[..k - 1] == ins[..k - 1];
    } else {
      k := |ins|;
      assert ins[..k] == ins;
      ReachableUnlessAccepted(c, front);
      ControlReachable(c, front);
      OrphanStep(c, After(c, front), i);
    }
  }

  lemma {:induction false} PrefixOfRun(c: Config, ins: seq<In>, k: nat)
    requires LegalRun(c, ins) && !OrphanAccepted(c, ins) && k <= |ins|
    ensures LegalRun(c, ins[..k]) && !OrphanAccepted(c, ins[..k])
  {
    if k < |ins| {
      PrefixOfRun(c, ins[..|ins| - 1], k);
      assert ins[..|ins| - 1][..k] == ins[..k];
    } else {
      assert ins[..k] == ins;
    }
  }

  function AfterE1(u: Units, f: RegFile, x: E1, ext: Word): RegFile {
    if x.live && x.exc == NO_EXC then Exec(u, f, x.instr, ext) else f
  }

  /** Whenever an instruction issues behind one that does not trap, each operand it captures is
      the register file after the older instructions in WB, E2 and E1 have all retired, whatever
      value a load still in E1 brings. */
  lemma {:induction false} IssueReadsArchitecturalRegisters(c: Config, ins: seq<In>, i: In, r: Reg, loaded: Word)
    requires LegalRun(c, ins) && !OrphanAccepted(c, ins)
    requires var s := After(c, ins).s; Legal(s, i) && Issue(c, s, i) && s.e1.exc == NO_EXC
    requires r in {i.instr.ra, i.instr.rb}
    ensures var (s, h) := (After(c, ins).s, After(c, ins).h);
            var f1 := AfterWB(c.u, s.regs, s.wb, h.extW);
            var f2 := AfterE2(c.u, f1, s.e2, ExtLeavingE2(s, h, i));
            Operand(c, s, i, r) == AfterE1(c.u, f2, s.e1, if s.e1.instr.cls.Load? then loaded else h.ext1)[r]
  {
    ReachableUnlessAccepted(c, ins);
    if LeakFree(c, ins) {
      OperandAfterE1(c, After(c, ins).s, After(c, ins).h, i, r, loaded);
    }
  }

  lemma OperandAfterE1(c: Config, s: State, h: Hist, i: In, r: Reg, loaded: Word)
    requires Inv(c, s) && Legal(s, i) && Data(c, s, h) && Issue(c, s, i) && s.e1.exc == NO_EXC
    requires r in {i.instr.ra, i.instr.rb}
    ensures var f1 := AfterWB(c.u, s.regs, s.wb, h.extW);
            var f2 := AfterE2(c.u, f1, s.e2, ExtLeavingE2(s, h, i));
            Operand(c, s, i, r) == AfterE1(c.u, f2, s.e1, if s.e1.instr.cls.Load? then loaded else h.ext1)[r]
  {
    var f1 := AfterWB(c.u, s.regs, s.wb, h.extW);
    var f2 := AfterE2(c.u, f1, s.e2, ExtLeavingE2(s, h, i));
    if r != 0 && RdE1(s) == r {
      E1ForwardsOnlyAlu(c, s, i);
      OperandsOfE1(c, s, h, i);
    } else if r != 0 {
      OlderThanE1(c, s, h, f1, i, r);
    }
  }

  lemma OperandsOfE1(c: Config, s: State, h: Hist, i: In)
    requires Inv(c, s) && Legal(s, i) && Data(c, s, h) && Issue(c, s, i) && s.e1.live
    ensures var f1 := AfterWB(c.u, s.regs, s.wb, h.extW);
            var f2 := AfterE2(c.u, f1, s.e2, ExtLeavingE2(s, h, i));
            s.e1.opA == f2[s.e1.instr.ra] && s.e1.opB == f2[s.e1.instr.rb]
  {
    var f1 := AfterWB(c.u, s.regs, s.wb, h.extW);
    ReadsAfterRetire(c.u, f1, s.e2, s.mulE2, h.ext2, ExtLeavingE2(s, h, i), s.e1.instr.ra, s.e1.opA);
    ReadsAfterRetire(c.u, f1, s.e2, s.mulE2, h.ext2, ExtLeavingE2(s, h, i), s.e1.instr.rb, s.e1.opB);
  }

  // ---------------------------------------------------------------- precise traps

  predicate TrapsNow(s: State, i: In) { !Stall(s, i) && SquashNow(s, i) }

  /** A trap leaving E2 is precise: the older instruction in WB commits at that edge; nothing
      issues in that cycle, nor until the redirect has been requested two cycles later; no
      register is written and no access is presented or held on behalf of a younger instruction. */
  lemma {:induction false} TrapsArePrecise(c: Config, ins: seq<In>, i0: In, i1: In, i2: In)
    requires LegalRun(c, ins) && LeakFree(c, ins)
    requires var s0 := After(c, ins).s; TrapsNow(s0, i0) && !Leaks(s0, i0) && Legal(s0, i0)
    requires var s1 := Next(c, After(c, ins).s, i0); Legal(s1, i1) && Legal(Next(c, s1, i1), i2)
    ensures var (s0, h0) := (After(c, ins).s, After(c, ins).h);
            var s1 := Next(c, s0, i0); var s2 := Next(c, s1, i1); var s3 := Next(c, s2, i2);
            && !Issue(c, s0, i0) && !Issue(c, s1, i1) && !Issue(c, s2, i2)
            && s1.wb.instr == s0.e2.instr && s1.wb.exc == ExcE2(s0, i0) && s2.branchCsrQ
            && s1.regs == AfterWB(c.u, s0.regs, s0.wb, h0.extW) && s2.regs == s1.regs && s3.regs == s1.regs
            && !Requesting(s0, i0) && !Requesting(s1, i1) && !Requesting(s2, i2)
            && s1.slot.Empty? && s2.slot.Empty? && s3.slot.Empty?
            && !s1.pending && !s2.pending && !s3.pending
  {
    Reachable(c, ins);
    var s0 := After(c, ins).s;
    TrapEdge(c, s0, After(c, ins).h, i0);
    EmptyUntilRedirect(c, Next(c, s0, i0), i1);
    EmptyUntilRedirect(c, Next(c, Next(c, s0, i0), i1), i2);
  }

  /** The pipeline holds nothing younger than the trap, and no access. */
  predicate Drained(s: State) {
    && !s.e1.live && s.e1.exc == NO_EXC && !s.e2.live && s.e2.exc == NO_EXC && !s.e2.valid
    && s.slot.Empty? && !s.pending
    && !s.wb.rdValid && s.csrExcQ == NO_EXC
  }

  lemma TrapEdge(c: Config, s: State, h: Hist, i: In)
    requires Inv(c, s) && Legal(s, i) && Data(c, s, h) && TrapsNow(s, i) && !Leaks(s, i)
    ensures !Issue(c, s, i) && !Requesting(s, i)
    ensures var s' := Next(c, s, i);
            && Drained(s') && s'.squashQ && s'.wb.instr == s.e2.instr && s'.wb.exc == ExcE2(s, i)
            && s'.regs == AfterWB(c.u, s.regs, s.wb, h.extW)
  {
    RegsStep(c, s, h, i);
  }

  lemma EmptyUntilRedirect(c: Config, s: State, i: In)
    requires Drained(s) && Legal(s, i) && (s.squashQ || s.branchCsrQ)
    ensures !Issue(c, s, i) && !Requesting(s, i)
    ensures var s' := Next(c, s, i); Drained(s') && s'.regs == s.regs && (s.wb.exc != NO_EXC ==> s'.branchCsrQ)
  {
  }

  /** Exactly when an access outlives the instruction that a trap squashes; a misaligned one only
      completes inside the unit, one clock later, and reaches no memory. */
  lemma AccessOutlivesTrapIffLeak(c: Config, ins: seq<In>, i: In)
    requires LegalRun(c, ins) && LeakFree(c, ins)
    requires var s := After(c, ins).s; Legal(s, i) && TrapsNow(s, i)
    ensures var (s, s') := (After(c, ins).s, Next(c, After(c, ins).s, i));
            && (!s'.slot.Empty? || s'.pending <==> Leaks(s, i))
            && (s'.unalignedE2 <==> !IsMemE2(s) && IsMemE1(s) && !Leaks(s, i))
            && (s'.unalignedE2 ==> forall j :: Legal(s', j) ==> !Next(c, s', j).unalignedE2 && !Issue(c, s', j))
  {
    Reachable(c, ins);
  }

  /** With word-aligned branch targets every run is leak free: only a taken branch to a
      misaligned address traps with a load or store behind it. */
  lemma {:induction false} AlignedTargetsNeverLeak(c: Config, ins: seq<In>)
    requires LegalRun(c, ins)
    requires forall n, a, b :: !c.u.badTarget(n, a, b)
    ensures LeakFree(c, ins) && !OrphanAccepted(c, ins) && OnlyCsrTraps(After(c, ins).s)
  {
    if ins != [] {
      var front, i := ins[..|ins| - 1], ins[|ins| - 1];
      AlignedTargetsNeverLeak(c, front);
      Reachable(c, front);
      assert !Leaks(After(c, front).s, i);
    }
  }

  predicate OnlyCsrTraps(s: State) {
    && (s.e1.exc != NO_EXC ==> s.e1.instr.cls.Csr?)
    && (s.e2.exc != NO_EXC ==> s.e2.live && s.e2.instr.cls.Csr?)
  }
}
