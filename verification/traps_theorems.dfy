/** The register file and the simulator agree on traps and returns, and traps unwind. */
module TrapsTheorems {
  import opened Options
  import opened Words
  import opened TrapsModel
  import opened TrapsStatus

  /** The register file holds what the simulator holds; only the trap values are not compared, and
      the delegation register keeps sixteen bits of the simulator's thirty-two. */
  ghost predicate Same(c: Csr, s: Sim) {
    && c.priv == s.priv <= MACHINE
    && c.sr == StatusOf(s.msr)
    && c.m.epc == s.mepc && c.m.cause == s.mcause && c.m.tvec == s.mevec
    && c.s.epc == s.sepc && c.s.cause == s.scause && c.s.tvec == s.sevec
    && c.medeleg == Low16(s.medeleg)
  }

  /** For every synchronous exception: privilege, status, epc, cause and target agree. */
  lemma {:induction false} ExceptionsAgree(c: Csr, s: Sim, cause: nat, i: In, badaddr: Word)
    requires Same(c, s) && cause < 16 && i.code == 0x10 + cause
    ensures var t := SimException(s, cause, i.pc, badaddr);
            Same(Next(c, i), t) && Target(c, i) == Some(t.pc)
  {
    hide StatusOf, SaveSuper, SaveMachine;
    SaveSuperFields(s.msr, s.priv);
    SaveMachineFields(s.msr, s.priv);
    assert Low16(c.medeleg) == c.medeleg;
    assert cause in c.medeleg <==> cause in s.medeleg;
  }

  /** The bad address the simulator passes with each exception it raises: the pc of a failed fetch,
      the address of a failed load or store, and otherwise the default of zero. */
  function SimBadAddress(cause: nat, pc: Word, addr: Word): Word {
    if cause == 12 then pc else if cause == 13 || cause == 15 then addr else 0
  }

  predicate SimRaises(cause: nat) { cause in {2, 3, 8, 9, 11, 12, 13, 15} }

  /** The supervisor trap value of a delegated exception agrees exactly unless it is an illegal
      instruction with a non-zero opcode, which only the hardware records. */
  lemma {:induction false} SuperTrapValueAgreesIff(c: Csr, s: Sim, cause: nat, i: In)
    requires Same(c, s) && SimRaises(cause) && i.code == 0x10 + cause && ToSuper(c, i)
    ensures Next(c, i).s.tval == SimException(s, cause, i.pc, SimBadAddress(cause, i.pc, i.addr)).stval
            <==> (cause == 2 ==> i.addr == 0)
  {
    hide StatusOf, SaveSuper, SaveMachine;
    assert cause in c.medeleg ==> cause in s.medeleg;
  }

  /** Returns agree too, on privilege, status and target. */
  lemma {:induction false} ReturnsAgree(c: Csr, s: Sim, i: In)
    requires Same(c, s) && (i.code == 0x31 || i.code == 0x33)
    ensures var t := if i.code == 0x33 then SimMret(s) else SimSret(s);
            Same(Next(c, i), t) && Target(c, i) == Some(t.pc)
  {
    MppFits(s.msr);
    hide PopMachine, PopSuper, GetMpp;
    PopMachineFields(s.msr);
    PopSuperFields(s.msr);
    assert Low16(c.medeleg) == c.medeleg;
  }

  lemma MppFits(s: bv32)
    ensures GetMpp(s) <= MACHINE
  {
  }

  lemma {:induction false} LowestIs(masked: set<nat>, from: nat)
    requires from <= 12
    ensures match Lowest(masked, from)
            case None => forall k :: from <= k < 12 ==> k !in masked
            case Some(x) => from <= x < 12 && x in masked && forall k :: from <= k < x ==> k !in masked
    decreases 12 - from
  {
    if from < 12 && from !in masked {
      LowestIs(masked, from + 1);
    }
  }

  /** An interrupt goes to the same mode with the same status, epc and target in both. The causes
      agree exactly when the lowest-numbered enabled interrupt belongs to the mode that takes it,
      or no interrupt of that mode is enabled and its cause register already shows the lowest one. */
  lemma {:induction false} InterruptCauseAgreesIff(c: Csr, s: Sim, mip: set<nat>, mie: set<nat>, i: In)
    requires Same(c, s) && mie <= IRQS
    requires (i.masked, i.maskedPriv) == Masked(mip, mie, s.mideleg, c.priv, c.sr) && i.masked != {}
    requires i.code == EXCEPTION_INTERRUPT && c.irqPriv == i.maskedPriv
    ensures Lowest(i.masked, 1).Some?
    ensures
      var low := Lowest(i.masked, 1).value;
      var t := SimException(s, CAUSE_INTERRUPT + low, i.pc, 0);
      var n := Next(c, i);
      var own: set<nat> := if i.maskedPriv == MACHINE then {3, 7, 11} else {1, 5, 9};
      var bank, was := if i.maskedPriv == MACHINE then n.m else n.s, if i.maskedPriv == MACHINE then c.m else c.s;
      && n.priv == t.priv && n.sr == StatusOf(t.msr) && Target(c, i) == Some(t.pc)
      && n.m.epc == t.mepc && n.s.epc == t.sepc
      && (bank.cause == CAUSE_INTERRUPT + low
          <==> low in own || (own !! i.masked && was.cause == CAUSE_INTERRUPT + low))
  {
    hide StatusOf, SaveSuper, SaveMachine;
    SaveSuperFields(s.msr, s.priv);
    SaveMachineFields(s.msr, s.priv);
    LowestIs(i.masked, 1);
    assert i.masked <= mie;
    forall k | k in i.masked ensures 1 <= k < 12 {
      assert k in IRQS;
    }
    var some :| some in i.masked;
    var low := Lowest(i.masked, 1).value;
    assert forall k :: 1 <= k < low ==> k !in i.masked;
    assert low in IRQS;
  }

  // ---------------------------------------------------------------- unwinding

  predicate TrapsToMachine(c: Csr, i: In) {
    (IsInterrupt(i.code) && c.irqPriv == MACHINE) || (IsException(i.code) && !ToSuper(c, i))
  }

  predicate TrapsToSuper(c: Csr, i: In) { (IsInterrupt(i.code) && c.irqPriv != MACHINE) || ToSuper(c, i) }

  /** A clock of a handler with no trap and no return, whose CSR write leaves alone the status and
      the saved pcs. */
  predicate Quiet(i: In) {
    && !IsInterrupt(i.code) && !IsReturn(i.code) && !IsException(i.code)
    && !i.write.Mstatus? && !i.write.Sstatus? && !i.write.Mepc? && !i.write.Sepc?
  }

  function RunAll(c: Csr, ins: seq<In>): Csr {
    if ins == [] then c else Next(RunAll(c, ins[..|ins| - 1]), ins[|ins| - 1])
  }

  lemma {:induction false} QuietKeeps(c: Csr, ins: seq<In>)
    requires forall i :: i in ins ==> Quiet(i)
    ensures var d := RunAll(c, ins); d.priv == c.priv && d.sr == c.sr && d.m.epc == c.m.epc && d.s.epc == c.s.epc
  {
    hide FirstOf, CauseMask, Low16, MergeSstatus, EnterMachine, EnterSuper, Return, TrapValue;
    if ins != [] {
      var n := |ins| - 1;
      QuietKeeps(c, ins[..n]);
      assert Quiet(ins[n]);
    }
  }

  predicate IsMret(i: In) { i.code == 0x33 }

  /** Trap to machine mode, handler, mret: privilege, interrupt enable and pc are back. */
  lemma MachineTrapUnwinds(c: Csr, trap: In, handler: seq<In>, ret: In)
    requires TrapsToMachine(c, trap) && IsMret(ret)
    requires forall i :: i in handler ==> Quiet(i)
    ensures var before := RunAll(Next(c, trap), handler);
            var after := Next(before, ret);
            && before.priv == MACHINE && !before.sr.mie
            && after.priv == c.priv && after.sr == c.sr.(mpie := true, mpp := USER)
            && Target(before, ret) == Some(trap.pc)
            && after.s.epc == c.s.epc
  {
    QuietKeeps(Next(c, trap), handler);
  }

  /** What happens in a supervisor handler: quiet clocks, and complete visits to machine mode. */
  datatype Activity = Clock(i: In) | Visit(trap: In, handler: seq<In>, ret: In)

  function Act(c: Csr, a: Activity): Csr {
    match a
    case Clock(i) => Next(c, i)
    case Visit(trap, handler, ret) => Next(RunAll(Next(c, trap), handler), ret)
  }

  predicate Proper(c: Csr, a: Activity) {
    match a
    case Clock(i) => Quiet(i)
    case Visit(trap, handler, ret) => TrapsToMachine(c, trap) && IsMret(ret) && forall i :: i in handler ==> Quiet(i)
  }

  function ActAll(c: Csr, acts: seq<Activity>): Csr
    decreases |acts|
  {
    if acts == [] then c else ActAll(Act(c, acts[0]), acts[1..])
  }

  predicate AllProper(c: Csr, acts: seq<Activity>)
    decreases |acts|
  {
    acts != [] ==> Proper(c, acts[0]) && AllProper(Act(c, acts[0]), acts[1..])
  }

  /** What a supervisor handler owns survives every visit to machine mode. */
  lemma {:induction false} VisitsKeepSuper(c: Csr, acts: seq<Activity>)
    requires AllProper(c, acts)
    ensures var d := ActAll(c, acts);
            && d.priv == c.priv && d.s.epc == c.s.epc
            && d.sr.sie == c.sr.sie && d.sr.spie == c.sr.spie && d.sr.spp == c.sr.spp && d.sr.mie == c.sr.mie
    decreases |acts|
  {
    if acts != [] {
      match acts[0] {
        case Clock(i) => QuietKeeps(c, [i]); assert RunAll(c, [i][..0]) == c;
        case Visit(trap, handler, ret) => MachineTrapUnwinds(c, trap, handler, ret);
      }
      VisitsKeepSuper(Act(c, acts[0]), acts[1..]);
    }
  }

  /** Trap to supervisor mode, a handler interrupted by any number of machine traps, sret: the
      interrupt enable and the pc are back, and the privilege exactly if the trap came from user or
      supervisor mode. (An exception always does; an interrupt does when it is still enabled.) */
  lemma SuperTrapUnwinds(c: Csr, trap: In, acts: seq<Activity>, ret: In)
    requires TrapsToSuper(c, trap) && ret.code == 0x31
    requires AllProper(Next(c, trap), acts)
    ensures var before := ActAll(Next(c, trap), acts);
            var after := Next(before, ret);
            && before.priv == SUPER && !before.sr.sie
            && after.sr.sie == c.sr.sie && after.sr.mie == c.sr.mie && after.sr.spie && !after.sr.spp
            && Target(before, ret) == Some(trap.pc)
            && (after.priv == c.priv <==> c.priv <= SUPER)
  {
    hide FirstOf, Written, TrapValue, Low16, ActAll, AllProper;
    VisitsKeepSuper(Next(c, trap), acts);
  }

  // ---------------------------------------------------------------- registers

  /** The trap registers, updated in the order of the hardware block. */
  class CsrFile {
    var priv: Priv
    var sr: Status
    var m: Bank
    var s: Bank
    var medeleg: set<nat>
    var irqPriv: Priv

    function View(): (c: Csr)
      reads this
    {
      Csr(priv, sr, m, s, medeleg, irqPriv)
    }

    constructor ()
      ensures View() == Csr(MACHINE, Status(false, false, false, false, false, USER, 0), Bank(0, 0, 0, 0),
                            Bank(0, 0, 0, 0), {}, MACHINE)
    {
      priv, irqPriv, medeleg := MACHINE, MACHINE, {};
      sr := Status(false, false, false, false, false, USER, 0);
      m, s := Bank(0, 0, 0, 0), Bank(0, 0, 0, 0);
    }

    /** One clock edge. */
    method Step(i: In)
      modifies this
      ensures View() == Next(old(View()), i)
    {
      var latched := if i.masked != {} then i.maskedPriv else irqPriv;
      if IsInterrupt(i.code) {
        if irqPriv == MACHINE {
          TakeMachine(i.pc, FirstOf(3, 7, 11, i.masked, m.cause), 0);
        } else {
          TakeSuper(i.pc, FirstOf(1, 5, 9, i.masked, s.cause), 0);
        }
      } else if IsReturn(i.code) {
        if i.code % 4 == 3 {
          priv := sr.mpp;
          sr := sr.(mie := sr.mpie, mpie := true, mpp := USER);
        } else {
          priv := if sr.spp then SUPER else USER;
          sr := sr.(sie := sr.spie, spie := true, spp := false);
        }
      } else if IsException(i.code) {
        if priv <= SUPER && i.code % 16 in medeleg {
          TakeSuper(i.pc, i.code % 16, TrapValue(i));
        } else {
          TakeMachine(i.pc, i.code % 16, TrapValue(i));
        }
      } else {
        var w := Written(View(), i.write);
        priv, sr, m, s, medeleg := w.priv, w.sr, w.m, w.s, w.medeleg;
      }
      medeleg := Low16(medeleg);
      irqPriv := latched;
    }

    method TakeMachine(pc: Word, cause: Word, tval: Word)
      modifies this
      ensures View() == EnterMachine(old(View()), pc, cause, tval)
    {
      sr := sr.(mpie := sr.mie, mpp := priv, mie := false);
      priv := MACHINE;
      m := m.(epc := pc, cause := cause, tval := tval);
    }

    method TakeSuper(pc: Word, cause: Word, tval: Word)
      modifies this
      ensures View() == EnterSuper(old(View()), pc, cause, tval)
    {
      sr := sr.(spie := sr.sie, spp := priv == SUPER, sie := false);
      priv := SUPER;
      s := s.(epc := pc, cause := cause, tval := tval);
    }
  }
}
