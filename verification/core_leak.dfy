/** What an accepted orphan does to the wired core: a run whose register file goes wrong, and one that
    never issues again. Both are a program of two loads and a branch to a misaligned target. */
module CoreLeak {
  import opened Options
  import opened PipeModel
  import opened PipeProofs
  import opened PipeTheorems
  import opened CoreModel
  import opened CoreTheorems
  import F = Fetch

  // ---------------------------------------------------------------- the program

  const LOAD_1 := Instr(Load, true, 1, 0, 0, 1, NO_EXC)
  const BRANCH := Instr(Branch, false, 0, 0, 0, 0, NO_EXC)
  const LOAD_2 := Instr(Load, true, 2, 0, 0, 2, NO_EXC)
  const LOAD_3 := Instr(Load, true, 3, 0, 0, 3, NO_EXC)

  /** A load returns a value that shows which instruction the load/store unit thinks it answers. */
  function LeakyUnits(): Units {
    Units((n, a, b) => 0, (n, a, b) => 0, (n, a, b) => 0, (n, a, b) => true,
          (n, a) => 0, (n, a) => false, (n: Instr, a, w) => n.opcode)
  }

  /** Memory holds at each address the address itself. */
  function Holds(pc: nat): F.Response
    requires pc < 0x1_0000_0000
  {
    F.Response(pc, false, false)
  }

  /** The first load is at 100, the branch to address 2 behind it, the second load at the word of its
      target, and the handler's load at 200. */
  function Decoded(r: F.Response): Instr {
    if r.instr == 100 then LOAD_1 else if r.instr == 104 then BRANCH else if r.instr == 0 then LOAD_2
    else if r.instr == 200 then LOAD_3 else NOP
  }

  function LeakyMachine(): Machine {
    Machine(Config(true, true, LeakyUnits()), 0,
            (r: F.Response) => Decoded(r), (r: F.Read) => Holds(r.pc), (n, pc, a, b) => Some(2))
  }

  // ---------------------------------------------------------------- the run

  /** Memory accepts the first load's request at 6 and answers it only at 9; the branch waits in E1 and
      traps at 10, with the load at its target behind it; that load's request is accepted at 15, as the
      handler's load issues, and answered at 17, when the handler's load is in E2. */
  function PipeIn(k: nat): In {
    var n := if k == 5 then LOAD_1 else if k == 6 then BRANCH
             else if k == 9 then LOAD_2 else if k == 15 then LOAD_3 else NOP;
    In(k in {5, 6, 9, 15}, n, 0, NO_EXC, k in {6, 15}, k in {9, 17}, false, false, false, 0, false)
  }

  /** The cache takes reads from clock 2 on, and answers those in flight at 4 to 9 and 13 to 15. */
  function FetchIn(k: nat): F.In {
    var answer :=
      if k == 4 || k == 5 then Some(Holds(100))
      else if k == 6 then Some(Holds(104)) else if k == 7 then Some(Holds(108))
      else if k == 8 then Some(Holds(112)) else if k == 9 then Some(Holds(0)) else if k == 13 then Some(Holds(4))
      else if k == 14 then Some(Holds(8)) else if k == 15 then Some(Holds(200)) else None;
    var redirect :=
      if k == 1 then Some(F.Target(100, 3)) else if k == 6 then Some(F.Target(2, 3))
      else if k == 12 then Some(F.Target(200, 3)) else None;
    F.In(true, k >= 2, answer, redirect)
  }

  function LeakyIn(k: nat): Clock {
    Clock(PipeIn(k), FetchIn(k), F.Target(if k < 12 then 100 else 200, 3))
  }

  function LeakyRun(n: nat): seq<Clock> { if n == 0 then [] else LeakyRun(n - 1) + [LeakyIn(n - 1)] }

  // ---------------------------------------------------------------- its states

  const IDLE := RESET.(resetQ := false)
  const A1 := Access(LOAD_1, 0, 0)
  const A2 := Access(LOAD_2, 0, 0)
  const A3 := Access(LOAD_3, 0, 0)
  const TRAPPING := E1(true, BRANCH, 0, 0, EXC_MISALIGNED_FETCH)
  const TRAPPED := E2(true, false, BRANCH, 0, 0, 0, EXC_MISALIGNED_FETCH)
  const RETIRED := WB(true, false, false, BRANCH, 0, 0, 0, EXC_MISALIGNED_FETCH)

  function PipeAt(k: nat): State {
    var f := ZERO_REGS[1 := 1];
    var late := IDLE.(regs := f, slot := Request(A3), pending := true, respQ := [A2]);
    if k == 0 then RESET
    else if k == 1 then IDLE.(branchCsrQ := true)
    else if k <= 5 then IDLE
    else if k == 6 then IDLE.(e1 := E1(true, LOAD_1, 0, 0, NO_EXC), slot := Request(A1))
    else if k <= 9 then
      IDLE.(e1 := TRAPPING, e2 := E2(true, true, LOAD_1, 0, 0, 0, NO_EXC), pending := true, respQ := [A1])
    else if k == 10 then
      IDLE.(e1 := E1(true, LOAD_2, 0, 0, NO_EXC), e2 := TRAPPED, wb := WB(true, true, true, LOAD_1, 0, 0, 1, NO_EXC),
            slot := Request(A2))
    else if k == 11 then IDLE.(regs := f, wb := RETIRED, squashQ := true, slot := Request(A2))
    else if k == 12 then IDLE.(regs := f, branchCsrQ := true, slot := Request(A2))
    else if k <= 15 then IDLE.(regs := f, slot := Request(A2))
    else if k == 16 then late.(e1 := E1(true, LOAD_3, 0, 0, NO_EXC))
    else if k == 17 then late.(e2 := E2(true, true, LOAD_3, 0, 0, 0, NO_EXC))
    else if k == 18 then IDLE.(regs := f, wb := WB(true, true, true, LOAD_3, 0, 0, 2, NO_EXC), slot := Request(A3))
    else IDLE.(regs := f[3 := 2], slot := Request(A3))
  }

  function FetchAt(k: nat): F.State {
    var none := F.Target(0, 3);
    var redirected := F.Target(if k < 6 then 100 else if k < 12 then 2 else 200, 3);
    var first := F.Pc(0, 3, false, 0);
    if k <= 1 then F.State(false, false, none, first, false, None)
    else if k == 2 then F.State(false, true, redirected, first, false, None)
    else if k == 3 then F.State(true, true, redirected, F.Pc(100, 3, true, 0), false, None)
    else if k == 4 then F.State(true, false, none, F.Pc(100, 3, true, 100), true, None)
    else if k == 5 then F.State(true, false, none, F.Pc(104, 3, false, 100), true, None)
    else if k == 6 then F.State(true, false, none, F.Pc(108, 3, false, 104), true, None)
    else if k == 7 then F.State(true, true, redirected, F.Pc(112, 3, false, 108), true, None)
    else if k == 8 then F.State(true, false, none, F.Pc(2, 3, true, 112), true, None)
    else if k == 9 then F.State(true, false, none, F.Pc(4, 3, false, 2), true, None)
    else if k <= 12 then F.State(true, false, none, F.Pc(8, 3, false, 4), true, None)
    else if k == 13 then F.State(true, true, redirected, F.Pc(8, 3, false, 4), true, None)
    else if k == 14 then F.State(true, false, none, F.Pc(200, 3, true, 8), true, None)
    else if k == 15 then F.State(true, false, none, F.Pc(204, 3, false, 200), true, None)
    else F.State(true, false, none, F.Pc(208, 3, false, 204), true, None)
  }

  predicate At(r: Core, k: nat) { r.p.s == PipeAt(k) && r.f.s == FetchAt(k) && r.t.priv == 3 && F.Cache(r.f.s, r.f.h) }

  lemma PipeToIssue(k: nat)
    requires k < 5
    ensures Legal(PipeAt(k), PipeIn(k)) && Next(LeakyMachine().c, PipeAt(k), PipeIn(k)) == PipeAt(k + 1)
  {
    if k == 0 {} else if k == 1 {} else if k == 2 {} else {}
  }

  lemma PipeToBranch(k: nat)
    requires 5 <= k < 7
    ensures Legal(PipeAt(k), PipeIn(k)) && Next(LeakyMachine().c, PipeAt(k), PipeIn(k)) == PipeAt(k + 1)
  {
    if k == 5 {} else {}
  }

  lemma PipeToTrap(k: nat)
    requires 7 <= k < 11
    ensures Legal(PipeAt(k), PipeIn(k)) && Next(LeakyMachine().c, PipeAt(k), PipeIn(k)) == PipeAt(k + 1)
  {
    if k < 9 {} else if k == 9 {} else {}
  }

  lemma PipeToRedirect(k: nat)
    requires 11 <= k < 14
    ensures Legal(PipeAt(k), PipeIn(k)) && Next(LeakyMachine().c, PipeAt(k), PipeIn(k)) == PipeAt(k + 1)
  {
    if k == 11 {} else if k == 12 {} else {}
  }

  lemma PipeToHandler(k: nat)
    requires 14 <= k < 17
    ensures Legal(PipeAt(k), PipeIn(k)) && Next(LeakyMachine().c, PipeAt(k), PipeIn(k)) == PipeAt(k + 1)
  {
    if k == 14 {} else if k == 15 {} else {}
  }

  lemma PipeToEnd(k: nat)
    requires 17 <= k <= 18
    ensures Legal(PipeAt(k), PipeIn(k)) && Next(LeakyMachine().c, PipeAt(k), PipeIn(k)) == PipeAt(k + 1)
  {
    if k == 17 {} else {}
  }

  lemma PipeStep(k: nat)
    requires k <= 18
    ensures Legal(PipeAt(k), PipeIn(k)) && Next(LeakyMachine().c, PipeAt(k), PipeIn(k)) == PipeAt(k + 1)
  {
    hide PipeAt, PipeIn, Next, Legal;
    if k < 5 { PipeToIssue(k); }
    else if k < 7 { PipeToBranch(k); }
    else if k < 11 { PipeToTrap(k); }
    else if k < 14 { PipeToRedirect(k); }
    else if k < 17 { PipeToHandler(k); }
    else { PipeToEnd(k); }
  }

  lemma FetchToBranch(k: nat)
    requires k < 7
    ensures F.Legal(FetchAt(k), FetchIn(k)) && F.Next(FetchAt(k), FetchIn(k)) == FetchAt(k + 1)
  {
    if k < 2 {} else if k < 4 {} else if k == 4 {} else if k == 5 {} else {}
  }

  lemma FetchToEnd(k: nat)
    requires 7 <= k <= 18
    ensures F.Legal(FetchAt(k), FetchIn(k)) && F.Next(FetchAt(k), FetchIn(k)) == FetchAt(k + 1)
  {
    if k == 7 {} else if k == 8 {} else if k == 9 {} else if k < 13 {}
    else if k == 13 {} else if k == 14 {} else if k == 15 {} else {}
  }

  lemma FetchStepAt(k: nat)
    requires k <= 18
    ensures F.Legal(FetchAt(k), FetchIn(k)) && F.Next(FetchAt(k), FetchIn(k)) == FetchAt(k + 1)
  {
    hide FetchAt, FetchIn, F.Legal, F.Next;
    if k < 7 { FetchToBranch(k); } else { FetchToEnd(k); }
  }

  lemma LeakyMachineSound()
    ensures Sound(LeakyMachine())
  {
  }

  lemma WiredToIssue(r: Core, k: nat)
    requires k < 5 && At(r, k)
    ensures Wired(LeakyMachine(), r, LeakyIn(k))
  {
    hide F.Next, Next, NextHist, F.Observe;
  }

  lemma WiredToTrap(r: Core, k: nat)
    requires 5 <= k < 10 && At(r, k)
    ensures Wired(LeakyMachine(), r, LeakyIn(k))
  {
    hide F.Next, Next, NextHist, F.Observe;
  }

  lemma WiredToRedirect(r: Core, k: nat)
    requires 10 <= k < 14 && At(r, k)
    ensures Wired(LeakyMachine(), r, LeakyIn(k))
  {
    hide F.Next, Next, NextHist, F.Observe;
  }

  lemma WiredToEnd(r: Core, k: nat)
    requires 14 <= k <= 18 && At(r, k)
    ensures Wired(LeakyMachine(), r, LeakyIn(k))
  {
    hide F.Next, Next, NextHist, F.Observe;
  }

  lemma WiredAt(r: Core, k: nat)
    requires k <= 18 && At(r, k)
    ensures Wired(LeakyMachine(), r, LeakyIn(k))
  {
    hide At, Wired, LeakyMachine, LeakyIn;
    if k < 5 { WiredToIssue(r, k); }
    else if k < 10 { WiredToTrap(r, k); }
    else if k < 14 { WiredToRedirect(r, k); }
    else { WiredToEnd(r, k); }
  }

  lemma Extends(m: Machine, ins: seq<Clock>, i: Clock)
    ensures CoreAfter(m, ins + [i]) == NextCore(m, CoreAfter(m, ins), i)
    ensures WiredRun(m, ins + [i]) <==> WiredRun(m, ins) && Wired(m, CoreAfter(m, ins), i)
  {
    hide NextCore, Wired;
    assert (ins + [i])[..|ins|] == ins;
  }

  lemma PipeExtends(m: Machine, ins: seq<Clock>, i: Clock)
    requires WiredRun(m, ins + [i])
    ensures WiredRun(m, ins) && Legal(CoreAfter(m, ins).p.s, i.pipe)
    ensures CoreAfter(m, ins + [i]).p == StepRun(m.c, CoreAfter(m, ins).p, i.pipe)
  {
    hide CoreAfter, WiredRun, StepRun, NextTrail, F.Next, F.Observe, Redirect, OpcodeValid, Issue, F.Shown;
    Extends(m, ins, i);
  }

  lemma LeakyStart()
    ensures WiredRun(LeakyMachine(), LeakyRun(0)) && At(CoreAfter(LeakyMachine(), LeakyRun(0)), 0)
  {
  }

  lemma {:induction false} LeakyStates(n: nat)
    requires n <= 19
    ensures WiredRun(LeakyMachine(), LeakyRun(n)) && At(CoreAfter(LeakyMachine(), LeakyRun(n)), n)
  {
    hide LeakyMachine, LeakyIn, At, Wired, NextCore, CoreAfter, WiredRun;
    if n == 0 {
      LeakyStart();
    } else {
      LeakyStates(n - 1);
      var r := CoreAfter(LeakyMachine(), LeakyRun(n - 1));
      Extends(LeakyMachine(), LeakyRun(n - 1), LeakyIn(n - 1));
      WiredAt(r, n - 1);
      AtNext(r, n - 1);
    }
  }

  lemma AtNext(r: Core, k: nat)
    requires k <= 18 && At(r, k)
    ensures At(NextCore(LeakyMachine(), r, LeakyIn(k)), k + 1)
  {
    hide PipeAt, FetchAt, LeakyMachine, PipeIn, FetchIn, Next, F.Next, F.Cache, NextHist, F.Observe, F.Legal;
    PipeStep(k);
    FetchStepAt(k);
    F.CacheStep(r.f.s, r.f.h, FetchIn(k));
  }

  // ---------------------------------------------------------------- the wrong register

  /** What a run adds to its outcomes when it commits the instruction in WB. */
  lemma CommitLast(c: Config, r: Run, i: In)
    requires !Stall(r.s, i) && r.s.wb.live && r.s.wb.exc == NO_EXC && r.h.doomed == []
    ensures ExecAll(c.u, ZERO_REGS, StepRun(c, r, i).h.outcomes)
            == Exec(c.u, ExecAll(c.u, ZERO_REGS, r.h.outcomes), r.s.wb.instr, r.h.extW)
  {
    Snoc(c.u, ZERO_REGS, r.h.outcomes, Commit(r.s.wb.instr, r.h.extW));
    assert Retire(r.s.wb, r.h.extW, r.h.doomed) == [Commit(r.s.wb.instr, r.h.extW)];
  }

  lemma LoadOfOpcode3(f: RegFile, ext: Word)
    ensures Exec(LeakyUnits(), f, LOAD_3, ext)[3] == 3
  {
  }

  lemma EndStates(k: nat)
    requires k == 17
    ensures !PipeAt(k).e1.live && !Stall(PipeAt(k), PipeIn(k))
    ensures !Stall(PipeAt(k + 1), PipeIn(k + 1)) && PipeAt(k + 2).regs[3] == 2
    ensures var w := PipeAt(k + 1).wb; w.live && w.exc == NO_EXC && w.instr == LOAD_3
  {
  }

  lemma NothingDoomed(c: Config, r: Run, i: In)
    requires !Stall(r.s, i) && !r.s.e1.live
    ensures StepRun(c, r, i).h.doomed == []
  {
  }

  lemma LastCommit(c: Config, r: Run, i: In, j: In)
    requires c.u == LeakyUnits() && !Stall(r.s, i) && !r.s.e1.live
    requires var s := Next(c, r.s, i); !Stall(s, j) && s.wb.live && s.wb.exc == NO_EXC && s.wb.instr == LOAD_3
    ensures ExecAll(c.u, ZERO_REGS, StepRun(c, StepRun(c, r, i), j).h.outcomes)[3] == 3
  {
    hide Next, NextHist, Stall, Exec, ExecAll;
    var r2 := StepRun(c, r, i);
    NothingDoomed(c, r, i);
    CommitLast(c, r2, j);
    LoadOfOpcode3(ExecAll(c.u, ZERO_REGS, r2.h.outcomes), r2.h.extW);
  }

  lemma UnitsOfMachine()
    ensures LeakyMachine().c.u == LeakyUnits()
  {
  }

  lemma OneClock(n: nat)
    requires n <= 18
    ensures var (a, b) := (CoreAfter(LeakyMachine(), LeakyRun(n)).p, CoreAfter(LeakyMachine(), LeakyRun(n + 1)).p);
            a.s == PipeAt(n) && b == StepRun(LeakyMachine().c, a, PipeIn(n))
  {
    hide PipeAt, FetchAt, PipeIn, FetchIn, CoreAfter, StepRun, NextTrail, F.Next, F.Observe, LeakyMachine, WiredRun;
    LeakyStates(n);
    Extends(LeakyMachine(), LeakyRun(n), LeakyIn(n));
  }

  lemma {:induction false} LeakyEnd(k: nat)
    requires k == 17
    ensures var r := CoreAfter(LeakyMachine(), LeakyRun(k + 2)).p;
            r.s.regs[3] == 2 && ExecAll(LeakyUnits(), ZERO_REGS, r.h.outcomes)[3] == 3
  {
    hide PipeAt, PipeIn, CoreAfter, LeakyRun, Stall, Next, NextHist, Exec, ExecAll, LeakyMachine;
    OneClock(k);
    OneClock(k + 1);
    EndStates(k);
    UnitsOfMachine();
    assert CoreAfter(LeakyMachine(), LeakyRun(k + 2)).p.s == PipeAt(k + 2) by { LeakyStates(k + 2); }
    LastCommit(LeakyMachine().c, CoreAfter(LeakyMachine(), LeakyRun(k)).p, PipeIn(k), PipeIn(k + 1));
  }

  /** The premise of `ExecutesTheProgram` is needed: in this run of the wired core memory accepts an
      orphan, and the committed load of the trap handler writes the response to the squashed load. */
  lemma {:induction false} LeakBreaksRefinement()
    ensures exists m, ins :: Sound(m) && WiredRun(m, ins) && OrphanAccepted(m.c, Pipes(ins))
                             && CoreAfter(m, ins).p.s.regs != ExecAll(m.c.u, ZERO_REGS, CoreAfter(m, ins).p.h.outcomes)
  {
    hide LeakyMachine, CoreAfter, WiredRun, OrphanAccepted, ExecAll, Sound;
    var (m, k) := (LeakyMachine(), 17);
    var ins := LeakyRun(k + 2);
    LeakyMachineSound();
    LeakyStates(k + 2);
    LeakyEnd(k);
    Components(m, ins);
    assert m.c.u == LeakyUnits() by { UnitsOfMachine(); }
    if !OrphanAccepted(m.c, Pipes(ins)) {
      RefinesSequentialExecution(m.c, Pipes(ins));
    }
  }

  // ---------------------------------------------------------------- no way on

  /** A load waits in E2 for a response that nothing will bring. */
  predicate Hung(s: State) { IsMemE2(s) && s.slot.Empty? && !s.pending && !s.unalignedE2 }

  lemma LastClock(m: Machine, ins: seq<Clock>, more: seq<Clock>)
    requires more != [] && WiredRun(m, ins + more)
    ensures var (front, i) := (ins + more[..|more| - 1], more[|more| - 1]);
            && WiredRun(m, front) && Legal(CoreAfter(m, front).p.s, i.pipe)
            && CoreAfter(m, ins + more).p == StepRun(m.c, CoreAfter(m, front).p, i.pipe)
  {
    hide CoreAfter, WiredRun, StepRun, Legal;
    var (front, i) := (ins + more[..|more| - 1], more[|more| - 1]);
    assert front + [i] == ins + more;
    PipeExtends(m, front, i);
  }

  lemma {:induction false} HungStays(m: Machine, ins: seq<Clock>, more: seq<Clock>)
    requires Hung(CoreAfter(m, ins).p.s) && WiredRun(m, ins + more)
    ensures Hung(CoreAfter(m, ins + more).p.s) && CoreAfter(m, ins + more).p.h.issued == CoreAfter(m, ins).p.h.issued
  {
    hide CoreAfter, WiredRun, Hung, StepRun, Legal;
    if more == [] {
      assert ins + more == ins;
    } else {
      var front := more[..|more| - 1];
      LastClock(m, ins, more);
      HungStays(m, ins, front);
      HungStep(m.c, CoreAfter(m, ins + front).p, more[|more| - 1].pipe);
    }
  }

  lemma HungStep(c: Config, r: Run, i: In)
    requires Hung(r.s) && Legal(r.s, i)
    ensures Hung(StepRun(c, r, i).s) && StepRun(c, r, i).h.issued == r.h.issued
  {
  }

  /** As before, but the orphan's response is an error and comes a clock earlier. */
  const FAILED: Clock := LeakyIn(16).(pipe := PipeIn(16).(memAck := true, memError := true))

  lemma FailedHangs(r: Core)
    requires At(r, 16)
    ensures Wired(LeakyMachine(), r, FAILED) && Hung(NextCore(LeakyMachine(), r, FAILED).p.s)
  {
  }

  /** An orphan can stop the core for good: its failed response drops the request of the handler's load,
      and whatever the surroundings do from then on, no instruction issues any more. */
  lemma {:induction false} OrphanCanHang()
    ensures exists m, ins :: Sound(m) && WiredRun(m, ins) && OrphanAccepted(m.c, Pipes(ins)) && NeverIssues(m, ins)
  {
    hide LeakyMachine, CoreAfter, WiredRun, OrphanAccepted, Sound, NextCore, Wired, At, NeverIssues, Hung;
    var (m, k) := (LeakyMachine(), 16);
    var ins := LeakyRun(k) + [FAILED];
    LeakyMachineSound();
    LeakyStates(k);
    Extends(m, LeakyRun(k), FAILED);
    FailedHangs(CoreAfter(m, LeakyRun(k)));
    HangIsOrphan(m, ins);
    NeverIssuesIfHung(m, ins);
  }

  ghost predicate NeverIssues(m: Machine, ins: seq<Clock>) {
    forall more :: WiredRun(m, ins + more) ==> CoreAfter(m, ins + more).p.h.issued == CoreAfter(m, ins).p.h.issued
  }

  lemma NeverIssuesIfHung(m: Machine, ins: seq<Clock>)
    requires Hung(CoreAfter(m, ins).p.s)
    ensures NeverIssues(m, ins)
  {
    hide CoreAfter, WiredRun, Hung;
    forall more | WiredRun(m, ins + more)
      ensures CoreAfter(m, ins + more).p.h.issued == CoreAfter(m, ins).p.h.issued
    {
      HungStays(m, ins, more);
    }
  }

  /** Only an orphan brings this about: otherwise every load in E2 has its access. */
  lemma HangIsOrphan(m: Machine, ins: seq<Clock>)
    requires WiredRun(m, ins) && Hung(CoreAfter(m, ins).p.s)
    ensures OrphanAccepted(m.c, Pipes(ins))
  {
    Components(m, ins);
    if !OrphanAccepted(m.c, Pipes(ins)) {
      ReachableUnlessAccepted(m.c, Pipes(ins));
    }
  }
}
