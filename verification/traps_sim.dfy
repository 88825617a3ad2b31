/** The simulator's trap methods as it runs them: statements on the status word and the CSR fields. */
module TrapsSim {
  import opened Words
  import opened TrapsModel

  datatype Handler = Handler(epc: Word, cause: Word, vec: Word)

  class Simulator {
    var priv: Priv
    var msr: bv32
    var machine: Handler
    var super: Handler
    var stval: Word
    var pc: Word
    const medeleg: set<nat>
    const mideleg: set<nat>

    function View(): (s: Sim)
      reads this
    {
      Sim(priv, msr, machine.epc, machine.cause, machine.vec, super.epc, super.cause, stval, super.vec, medeleg, mideleg, pc)
    }

    constructor (s: Sim)
      ensures View() == s
    {
      priv, msr, stval, pc := s.priv, s.msr, s.stval, s.pc;
      machine, super := Handler(s.mepc, s.mcause, s.mevec), Handler(s.sepc, s.scause, s.sevec);
      medeleg, mideleg := s.medeleg, s.mideleg;
    }

    /** Handle an exception or interrupt. */
    method Exception(cause: Word, at: Word, badaddr: Word)
      modifies this
      ensures View() == SimException(old(View()), cause, at, badaddr)
    {
      var deleg, bit := medeleg, cause;
      if cause >= CAUSE_INTERRUPT {
        deleg, bit := mideleg, cause - CAUSE_INTERRUPT;
      }
      if priv <= SUPER && bit in deleg {
        var s := EnterSuperStatus(msr, priv);
        priv, msr := SUPER, s;
        super := super.(epc := at, cause := cause);
        stval, pc := badaddr, super.vec;
      } else {
        var s := EnterMachineStatus(msr, priv);
        priv, msr := MACHINE, s;
        machine := machine.(epc := at, cause := cause);
        pc := machine.vec;
      }
    }

    method Mret()
      modifies this
      ensures View() == SimMret(old(View()))
    {
      hide CopyBit, Clear, SetIf, GetMpp;
      var previous := GetMpp(msr);
      var s := MoveBit(msr, SR_MPIE, SR_MIE);
      s := SetIf(s, true, SR_MPIE);
      s := Clear(s, SR_MPP);
      priv, msr, pc := previous, s, machine.epc;
    }

    method Sret()
      modifies this
      ensures View() == SimSret(old(View()))
    {
      hide CopyBit, Field, Clear, SetIf;
      var previous := if Field(msr, SR_SPP) then SUPER else USER;
      var s := MoveBit(msr, SR_SPIE, SR_SIE);
      s := SetIf(s, true, SR_SPIE);
      s := Clear(s, SR_SPP);
      priv, msr, pc := previous, s, super.epc;
    }
  }

  /** One bit of the status word takes the value of another. */
  method MoveBit(msr: bv32, source: bv32, target: bv32) returns (s: bv32)
    ensures s == CopyBit(msr, source, target)
  {
    hide SetIf, Clear, Field;
    s := Clear(msr, target);
    s := SetIf(s, Field(s, source), target);
  }

  /** Interrupt enable saved and cleared, previous privilege recorded, in supervisor fields. */
  method EnterSuperStatus(msr: bv32, priv: Priv) returns (s: bv32)
    ensures s == SaveSuper(msr, priv)
  {
    hide CopyBit, SetIf, Clear;
    s := MoveBit(msr, SR_SIE, SR_SPIE);
    s := Clear(s, SR_SIE);
    s := Clear(s, SR_SPP);
    s := SetIf(s, priv == SUPER, SR_SPP);
  }

  method EnterMachineStatus(msr: bv32, priv: Priv) returns (s: bv32)
    ensures s == SaveMachine(msr, priv)
  {
    hide CopyBit, Clear, OrMpp;
    s := MoveBit(msr, SR_MIE, SR_MPIE);
    s := Clear(s, SR_MIE);
    s := Clear(s, SR_MPP);
    s := OrMpp(s, priv);
  }
}
