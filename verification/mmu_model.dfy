/** The Sv32 memory management unit: page table walker, instruction and data TLB registers,
    fault checks and the request mux, one `Next` per clock edge. Memory is a function from
    physical address to word, `None` where a read fails. */
module MmuModel {
  import opened Options

  type Word = bv32

  type Memory = Word -> Option<Word>

  const PAGE_PRESENT: Word := 0x1
  const PAGE_READ: Word := 0x2
  const PAGE_WRITE: Word := 0x4
  const PAGE_EXEC: Word := 0x8
  const PAGE_USER: Word := 0x10
  const SATP_MODE: Word := 0x8000_0000

  const PRIV_USER: bv2 := 0
  const PRIV_SUPER: bv2 := 1
  const PRIV_MACHINE: bv2 := 3

  predicate Has(pte: Word, flag: Word) { pte & flag != 0 }

  predicate IsPointer(pte: Word) { !Has(pte, PAGE_READ) && !Has(pte, PAGE_WRITE) && !Has(pte, PAGE_EXEC) }

  /** Virtual page number, the part of an address the TLBs compare. */
  function Page(addr: Word): Word { addr >> 12 }

  // ---------------------------------------------------------------- walker arithmetic

  /** Indices into the first-level and second-level table. */
  function Index1(addr: Word): Word { addr >> 22 }
  function Index0(addr: Word): Word { (addr >> 12) & 0x3ff }

  function FirstAddr(satp: Word, index: Word): Word { ((satp & 0xf_ffff) << 12) + (index << 2) }

  function SecondAddr(pte: Word, index: Word): Word { (((pte >> 10) & 0xf_ffff) << 12) + (index << 2) }

  function Ppn(pte: Word): Word { pte >> 10 }

  function Entry(ppn: Word, pte: Word): Word { (ppn << 12) | (pte & 0x3ff) }

  /** A first-level leaf becomes the entry of the 4 KB page inside the 4 MB superpage. */
  function SuperEntry(pte: Word, index: Word): Word { Entry(Ppn(pte) | index, pte) }

  function PageEntry(pte: Word): Word { Entry(Ppn(pte), pte) }

  // ---------------------------------------------------------------- registers and inputs

  datatype Phase = Idle | First | Second | Update

  datatype Tlb = Tlb(valid: bool, page: Word, entry: Word)

  datatype State = State(
    phase: Phase, pteAddr: Word, pteEntry: Word, virtAddr: Word, dtlbReq: bool,
    itlb: Tlb, dtlb: Tlb,
    loadQ: bool, storeQ: bv4, lsuAddrQ: Word,
    memReq: bool, readHold: bool, srcMmu: bool)

  const RESET := State(Idle, 0, 0, 0, false, Tlb(false, 0, 0), Tlb(false, 0, 0), false, 0, 0, false, false, false)

  datatype In = In(
    satp: Word, mem: Memory, privD: bv2, sum: bool, mxr: bool, flush: bool,
    fetchRd: bool, fetchPc: Word, fetchPriv: bv2,
    lsuRd: bool, lsuWr: bv4, lsuAddr: Word,
    outAccept: bool, outAck: bool, outMmuTag: bool, outError: bool, outData: Word)

  // ---------------------------------------------------------------- wires

  predicate Load(s: State, i: In) { i.lsuRd || s.loadQ }
  function Store(s: State, i: In): bv4 { i.lsuWr | s.storeQ }
  predicate Access(s: State, i: In) { Load(s, i) || Store(s, i) != 0 }
  function LsuAddr(s: State, i: In): Word { if Access(s, i) then i.lsuAddr else s.lsuAddrQ }

  predicate VmI(i: In) { i.fetchPriv != PRIV_MACHINE }
  predicate VmD(i: In) { Has(i.satp, SATP_MODE) && i.privD != PRIV_MACHINE }

  predicate ItlbHit(s: State, i: In) { i.fetchRd && s.itlb.valid && s.itlb.page == Page(i.fetchPc) }
  predicate DtlbHit(s: State, i: In) { s.dtlb.valid && s.dtlb.page == Page(LsuAddr(s, i)) }
  predicate ItlbMiss(s: State, i: In) { i.fetchRd && VmI(i) && !ItlbHit(s, i) }
  predicate DtlbMiss(s: State, i: In) { Access(s, i) && VmD(i) && !DtlbHit(s, i) }

  /** Data misses win; during a walk the live address of the requester is used. */
  function RequestAddr(s: State, i: In): Word {
    if (if s.phase.Idle? then DtlbMiss(s, i) else s.dtlbReq) then LsuAddr(s, i) else i.fetchPc
  }

  predicate RespValid(i: In) { i.outMmuTag && i.outAck }
  predicate RespError(i: In) { i.outMmuTag && i.outError }

  predicate LoadDenied(priv: bv2, sum: bool, mxr: bool, pte: Word) {
    if priv == PRIV_SUPER then
      if Has(pte, PAGE_USER) && !sum then true else !(Has(pte, PAGE_READ) || (mxr && Has(pte, PAGE_EXEC)))
    else !Has(pte, PAGE_READ) || !Has(pte, PAGE_USER)
  }

  predicate StoreDenied(priv: bv2, sum: bool, pte: Word) {
    if priv == PRIV_SUPER then
      if Has(pte, PAGE_USER) && !sum then true else !Has(pte, PAGE_READ) || !Has(pte, PAGE_WRITE)
    else !Has(pte, PAGE_READ) || !Has(pte, PAGE_WRITE) || !Has(pte, PAGE_USER)
  }

  predicate FetchDenied(priv: bv2, pte: Word) {
    if priv == PRIV_SUPER then
      if Has(pte, PAGE_USER) then true else !Has(pte, PAGE_EXEC)
    else !Has(pte, PAGE_EXEC) || !Has(pte, PAGE_USER)
  }

  predicate LoadFault(s: State, i: In) {
    VmD(i) && Load(s, i) && DtlbHit(s, i) && LoadDenied(i.privD, i.sum, i.mxr, s.dtlb.entry)
  }
  predicate StoreFault(s: State, i: In) {
    VmD(i) && Store(s, i) != 0 && DtlbHit(s, i) && StoreDenied(i.privD, i.sum, s.dtlb.entry)
  }

  predicate PcFault(s: State, i: In) { VmI(i) && ItlbHit(s, i) && FetchDenied(i.fetchPriv, s.itlb.entry) }

  /** What goes on to the instruction cache. */
  predicate FetchOut(s: State, i: In) { (!VmI(i) && i.fetchRd) || (ItlbHit(s, i) && !PcFault(s, i)) }
  function FetchPcOut(s: State, i: In): Word { if VmI(i) then Translate(s.itlb.entry, i.fetchPc) else i.fetchPc }

  function Translate(entry: Word, addr: Word): Word { (entry & 0xffff_f000) | (addr & 0xfff) }

  predicate SrcMmu(s: State) { if s.readHold then s.srcMmu else s.memReq }
  predicate MmuAccept(s: State, i: In) { SrcMmu(s) && i.outAccept }
  predicate CpuAccept(s: State, i: In) { !SrcMmu(s) && i.outAccept }

  predicate CpuRd(s: State, i: In) { if VmD(i) then Load(s, i) && DtlbHit(s, i) && !LoadFault(s, i) else i.lsuRd }
  function CpuWr(s: State, i: In): bv4 {
    if VmD(i) then if DtlbHit(s, i) && !StoreFault(s, i) then Store(s, i) else 0 else i.lsuWr
  }

  predicate OutRd(s: State, i: In) { if SrcMmu(s) then s.memReq else CpuRd(s, i) }
  function OutWr(s: State, i: In): bv4 { if SrcMmu(s) then 0 else CpuWr(s, i) }
  function OutAddr(s: State, i: In): Word {
    if SrcMmu(s) then s.pteAddr
    else if VmD(i) then Translate(s.dtlb.entry, LsuAddr(s, i)) else LsuAddr(s, i)
  }

  predicate LsuAccept(s: State, i: In) {
    || (!VmD(i) && CpuAccept(s, i)) || (VmD(i) && DtlbHit(s, i) && CpuAccept(s, i))
    || StoreFault(s, i) || LoadFault(s, i)
  }

  predicate StartWalk(s: State, i: In) { s.phase.Idle? && (ItlbMiss(s, i) || DtlbMiss(s, i)) }

  /** A present first-level entry that points to a second-level table. */
  predicate FirstIsPointer(i: In) {
    !RespError(i) && Has(i.outData, PAGE_PRESENT) && IsPointer(i.outData)
  }

  // ---------------------------------------------------------------- clock edge

  datatype Walk = Walk(phase: Phase, pteAddr: Word, pteEntry: Word, virtAddr: Word, dtlbReq: bool)

  function WalkOf(s: State): Walk { Walk(s.phase, s.pteAddr, s.pteEntry, s.virtAddr, s.dtlbReq) }

  function NextWalk(s: State, i: In): Walk {
    var w := WalkOf(s);
    if StartWalk(s, i) then
      Walk(First, FirstAddr(i.satp, Index1(RequestAddr(s, i))), s.pteEntry, RequestAddr(s, i), DtlbMiss(s, i))
    else if s.phase.First? && RespValid(i) then
      if RespError(i) || !Has(i.outData, PAGE_PRESENT) then w.(phase := Update, pteEntry := 0)
      else if IsPointer(i.outData) then w.(phase := Second, pteAddr := SecondAddr(i.outData, Index0(RequestAddr(s, i))))
      else w.(phase := Update, pteEntry := SuperEntry(i.outData, Index0(RequestAddr(s, i))))
    else if s.phase.Second? && RespValid(i) then
      w.(phase := Update, pteEntry := if Has(i.outData, PAGE_PRESENT) then PageEntry(i.outData) else 0)
    else if s.phase.Update? then w.(phase := Idle)
    else w
  }

  /** The instruction TLB becomes valid only if its previous tag matches the pc at hand. */
  function NextItlb(s: State, i: In): Tlb {
    var update := s.phase.Update? && !s.dtlbReq;
    Tlb(if i.flush then false
        else if update then s.itlb.page == Page(i.fetchPc)
        else if !s.phase.Idle? && !s.dtlbReq then false
        else s.itlb.valid,
        if update then Page(s.virtAddr) else s.itlb.page,
        if update then s.pteEntry else s.itlb.entry)
  }

  function NextDtlb(s: State, i: In): Tlb {
    var update := s.phase.Update? && s.dtlbReq;
    Tlb(if i.flush then false else if update then true else s.dtlb.valid,
        if update then Page(s.virtAddr) else s.dtlb.page,
        if update then s.pteEntry else s.dtlb.entry)
  }

  function Next(s: State, i: In): State {
    var w := NextWalk(s, i);
    var held := (OutRd(s, i) || OutWr(s, i) != 0) && !i.outAccept;
    State(
      w.phase, w.pteAddr, w.pteEntry, w.virtAddr, w.dtlbReq,
      NextItlb(s, i), NextDtlb(s, i),
      if i.lsuRd then !LsuAccept(s, i) else s.loadQ,
      if i.lsuWr != 0 then if LsuAccept(s, i) then 0 else i.lsuWr else s.storeQ,
      if Access(s, i) then i.lsuAddr else s.lsuAddrQ,
      if StartWalk(s, i) || (s.phase.First? && RespValid(i) && FirstIsPointer(i)) then true
      else if MmuAccept(s, i) then false else s.memReq,
      if held then true else if i.outAccept then false else s.readHold,
      if held then SrcMmu(s) else s.srcMmu)
  }

  // ---------------------------------------------------------------- surroundings

  /** What the memory side remembers: whether a walker read is unanswered, and how many entries the
      present walk has read. */
  datatype Env = Env(outstanding: bool, ptes: nat)

  predicate Answers(w: Option<Word>, i: In) {
    if w.None? then RespError(i) else !RespError(i) && i.outData == w.value
  }

  /** The requester keeps its page during a walk; a walker read is answered once, with the word
      memory then holds. satp and memory may change in any clock. */
  predicate Legal(s: State, e: Env, i: In) {
    && (!s.phase.Idle? ==> Page(RequestAddr(s, i)) == Page(s.virtAddr))
    && (RespValid(i) ==> e.outstanding && Answers(i.mem(s.pteAddr), i))
  }

  function NextEnv(s: State, e: Env, i: In): Env {
    Env(if MmuAccept(s, i) then true else if RespValid(i) then false else e.outstanding,
        if StartWalk(s, i) then 0 else if MmuAccept(s, i) && OutRd(s, i) then e.ptes + 1 else e.ptes)
  }

  datatype Run = Run(s: State, e: Env)

  function StepRun(r: Run, i: In): Run { Run(Next(r.s, i), NextEnv(r.s, r.e, i)) }

  function After(r: Run, ins: seq<In>): Run
    decreases |ins|
  {
    if ins == [] then r else StepRun(After(r, ins[..|ins| - 1]), ins[|ins| - 1])
  }

  predicate LegalRun(r: Run, ins: seq<In>)
    decreases |ins|
  {
    ins == [] ||
    var front := ins[..|ins| - 1];
    LegalRun(r, front) && Legal(After(r, front).s, After(r, front).e, ins[|ins| - 1])
  }

  const START := Run(RESET, Env(false, 0))
}
