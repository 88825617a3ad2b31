/** The memory management unit as clocked registers. */
module MmuUnit {
  import opened MmuModel

  /** The latched load/store request, and the walker's memory request with the request mux. */
  datatype RequestRegs = RequestRegs(load: bool, store: bv4, addr: Word)
  datatype PortRegs = PortRegs(memReq: bool, readHold: bool, srcMmu: bool)

  class Mmu {
    var walk: Walk
    var itlb: Tlb
    var dtlb: Tlb
    var request: RequestRegs
    var port: PortRegs

    function View(): State
      reads this
    {
      State(walk.phase, walk.pteAddr, walk.pteEntry, walk.virtAddr, walk.dtlbReq, itlb, dtlb,
            request.load, request.store, request.addr, port.memReq, port.readHold, port.srcMmu)
    }

    constructor ()
      ensures View() == RESET
    {
      walk := Walk(Idle, 0, 0, 0, false);
      itlb, dtlb := Tlb(false, 0, 0), Tlb(false, 0, 0);
      request, port := RequestRegs(false, 0, 0), PortRegs(false, false, false);
    }

    /** One clock edge. */
    method Step(i: In)
      modifies this
      ensures View() == Next(old(View()), i)
    {
      hide NextWalk, NextItlb, NextDtlb, OutRd, OutWr, LsuAccept, StartWalk, FirstIsPointer, SrcMmu, MmuAccept,
        Access, RespValid;
      var s := View();
      var walk' := ClockWalker(s, i);
      var itlb' := ClockItlb(s, i);
      var dtlb' := ClockDtlb(s, i);
      var request' := ClockRequest(s, i);
      var port' := ClockPort(s, i);
      walk, itlb, dtlb, request, port := walk', itlb', dtlb', request', port';
    }
  }

  /** The walker's state machine. */
  method ClockWalker(s: State, i: In) returns (w: Walk)
    ensures w == NextWalk(s, i)
  {
    hide FirstAddr, SecondAddr, SuperEntry, PageEntry, Has, IsPointer, Index0, Index1, ItlbMiss, DtlbMiss,
      RequestAddr, RespValid, RespError;
    w := WalkOf(s);
    var addr := RequestAddr(s, i);
    match s.phase {
      case Idle =>
        if ItlbMiss(s, i) || DtlbMiss(s, i) {
          w := w.(pteAddr := FirstAddr(i.satp, Index1(addr)), virtAddr := addr, dtlbReq := DtlbMiss(s, i), phase := First);
        }
      case First =>
        if RespValid(i) {
          if RespError(i) || !Has(i.outData, PAGE_PRESENT) {
            w := w.(pteEntry := 0, phase := Update);
          } else if IsPointer(i.outData) {
            w := w.(pteAddr := SecondAddr(i.outData, Index0(addr)), phase := Second);
          } else {
            w := w.(pteEntry := SuperEntry(i.outData, Index0(addr)), phase := Update);
          }
        }
      case Second =>
        if RespValid(i) {
          w := w.(pteEntry := if Has(i.outData, PAGE_PRESENT) then PageEntry(i.outData) else 0, phase := Update);
        }
      case Update =>
        w := w.(phase := Idle);
    }
  }

  method ClockItlb(s: State, i: In) returns (t: Tlb)
    ensures t == NextItlb(s, i)
  {
    t := s.itlb;
    if i.flush {
      t := t.(valid := false);
    } else if s.phase.Update? && !s.dtlbReq {
      t := t.(valid := t.page == Page(i.fetchPc));
    } else if !s.phase.Idle? && !s.dtlbReq {
      t := t.(valid := false);
    }
    if s.phase.Update? && !s.dtlbReq {
      t := t.(page := Page(s.virtAddr), entry := s.pteEntry);
    }
  }

  method ClockDtlb(s: State, i: In) returns (t: Tlb)
    ensures t == NextDtlb(s, i)
  {
    t := s.dtlb;
    if i.flush {
      t := t.(valid := false);
    } else if s.phase.Update? && s.dtlbReq {
      t := t.(valid := true);
    }
    if s.phase.Update? && s.dtlbReq {
      t := t.(page := Page(s.virtAddr), entry := s.pteEntry);
    }
  }

  /** A load or store that was not accepted stays requested; the address follows the requester. */
  method ClockRequest(s: State, i: In) returns (r: RequestRegs)
    ensures var n := Next(s, i); r == RequestRegs(n.loadQ, n.storeQ, n.lsuAddrQ)
  {
    hide NextWalk, NextItlb, NextDtlb, OutRd, OutWr, LsuAccept, StartWalk, FirstIsPointer;
    var loadQ, storeQ, lsuAddrQ := s.loadQ, s.storeQ, s.lsuAddrQ;
    if i.lsuRd {
      loadQ := !LsuAccept(s, i);
    }
    if i.lsuWr != 0 {
      storeQ := if LsuAccept(s, i) then 0 else i.lsuWr;
    }
    if Access(s, i) {
      lsuAddrQ := i.lsuAddr;
    }
    r := RequestRegs(loadQ, storeQ, lsuAddrQ);
  }

  method ClockPort(s: State, i: In) returns (r: PortRegs)
    ensures var n := Next(s, i); r == PortRegs(n.memReq, n.readHold, n.srcMmu)
  {
    hide NextWalk, NextItlb, NextDtlb, OutRd, OutWr, LsuAccept, StartWalk, FirstIsPointer;
    var memReq, readHold, srcMmu := s.memReq, s.readHold, s.srcMmu;
    if StartWalk(s, i) {
      memReq := true;
    } else if s.phase.First? && RespValid(i) && FirstIsPointer(i) {
      memReq := true;
    } else if MmuAccept(s, i) {
      memReq := false;
    }
    if (OutRd(s, i) || OutWr(s, i) != 0) && !i.outAccept {
      readHold, srcMmu := true, SrcMmu(s);
    } else if i.outAccept {
      readHold := false;
    }
    r := PortRegs(memReq, readHold, srcMmu);
  }
}
