/** The simulator's page walk and translation, and what the hardware has in common with them. */
module MmuTheorems {
  import opened Options
  import opened MmuModel
  import opened MmuProofs

  // ---------------------------------------------------------------- the simulator's walk

  /** `Exit` is a path on which the simulator ends the program or leaves its table loop: a failed
      assertion, an unmapped physical page, or a pointer entry in the last level. */
  datatype WalkResult = Pte(value: Word) | Exit

  // Level 1 is the first table, level 0 the last; each level covers ten bits of page number.

  function SimPteAddr(base: Word, addr: Word, i: nat): Word {
    base + (((if i == 1 then addr >> 22 else addr >> 12) & 0x3ff) << 2)
  }

  /** Physical page number of a leaf. The simulator forms the entry in 64 bits and asserts that
      its upper half is zero, that is, that this number fits in 20 bits. */
  function SimPpn(pte: Word, addr: Word, i: nat): Word {
    Ppn(pte) | ((addr >> 12) & (if i == 1 then 0x3ff else 0))
  }

  predicate FitsIn20Bits(ppn: Word) { ppn >> 20 == 0 }

  predicate SimPointer(pte: Word) { pte & (PAGE_READ | PAGE_WRITE | PAGE_EXEC) == 0 }

  function SimTable(pte: Word): Word { Ppn(pte) << 12 }

  function SimFinish(mem: Memory, pte: Word, ppn: Word): WalkResult {
    if !FitsIn20Bits(ppn) || mem(ppn << 12).None? then Exit else Pte(Entry(ppn, pte))
  }

  function SimLevel(mem: Memory, base: Word, addr: Word, i: nat): WalkResult
    requires i <= 1
    decreases i
  {
    match mem(SimPteAddr(base, addr, i))
    case None => Pte(0)
    case Some(pte) =>
      if !Has(pte, PAGE_PRESENT) then Pte(0)
      else if SimPointer(pte) then
        if i == 0 then Exit else SimLevel(mem, SimTable(pte), addr, i - 1)
      else SimFinish(mem, pte, SimPpn(pte, addr, i))
  }

  function SimBase(satp: Word): Word { (satp & 0x3f_ffff) << 12 }

  function SimWalk(mem: Memory, satp: Word, addr: Word): WalkResult {
    if !Has(satp, SATP_MODE) then Pte(PAGE_PRESENT | PAGE_READ | PAGE_WRITE | PAGE_EXEC | ((addr >> 12) << 12))
    else SimLevel(mem, SimBase(satp), addr, 1)
  }

  /** The walk as the loop of the simulator. */
  method MmuWalk(mem: Memory, satp: Word, addr: Word) returns (r: WalkResult)
    ensures r == SimWalk(mem, satp, addr)
  {
    if !Has(satp, SATP_MODE) {
      return Pte(PAGE_PRESENT | PAGE_READ | PAGE_WRITE | PAGE_EXEC | ((addr >> 12) << 12));
    }
    var base := SimBase(satp);
    var i := 1;
    while true
      invariant 0 <= i <= 1
      invariant SimLevel(mem, SimBase(satp), addr, 1) == SimLevel(mem, base, addr, i)
      decreases i
    {
      var read := mem(SimPteAddr(base, addr, i));
      if read.None? {
        return Pte(0);
      }
      var pte := read.value;
      if !Has(pte, PAGE_PRESENT) {
        return Pte(0);
      } else if SimPointer(pte) {
        if i == 0 {
          return Exit;
        }
        base := SimTable(pte);
        i := i - 1;
      } else {
        return SimFinish(mem, pte, SimPpn(pte, addr, i));
      }
    }
  }

  lemma SameFirstAddr(satp: Word, addr: Word)
    ensures SimPteAddr(SimBase(satp), addr, 1) == FirstAddr(satp, Index1(addr))
  {
    assert (addr >> 22) & 0x3ff == addr >> 22;
    assert (satp & 0x3f_ffff) << 12 == (satp & 0xf_ffff) << 12;
  }

  lemma SameSecondAddr(pte: Word, addr: Word)
    ensures SimPteAddr(SimTable(pte), addr, 0) == SecondAddr(pte, Index0(addr))
  {
    assert (pte >> 10) << 12 == ((pte >> 10) & 0xf_ffff) << 12;
  }

  lemma SamePpn(pte: Word, addr: Word)
    ensures SimPpn(pte, addr, 1) == Ppn(pte) | Index0(addr)
    ensures SimPpn(pte, addr, 0) == Ppn(pte)
    ensures IsPointer(pte) <==> SimPointer(pte)
  {
  }

  /** The first pass of the loop, in the hardware's terms. */
  lemma FirstLevel(mem: Memory, satp: Word, addr: Word)
    requires Has(satp, SATP_MODE)
    ensures SimWalk(mem, satp, addr)
            == match mem(FirstAddr(satp, Index1(addr)))
               case None => Pte(0)
               case Some(p) =>
                 if !Has(p, PAGE_PRESENT) then Pte(0)
                 else if IsPointer(p) then SimLevel(mem, SimTable(p), addr, 0)
                 else SimFinish(mem, p, Ppn(p) | Index0(addr))
  {
    hide FirstAddr, SecondAddr, SimPteAddr, SimBase, SimPpn, Has, IsPointer, Index0, Index1, SimPointer, SimFinish,
      Ppn, SimTable;
    SameFirstAddr(satp, addr);
    var first := mem(FirstAddr(satp, Index1(addr)));
    if first.Some? {
      SamePpn(first.value, addr);
    }
  }

  /** Where the simulator's walk ends with an entry, the table walk of the hardware finds the
      same entry. */
  lemma {:induction false} TableWalkIsSimWalk(mem: Memory, satp: Word, addr: Word)
    requires Has(satp, SATP_MODE) && SimWalk(mem, satp, addr).Pte?
    ensures TableWalk(mem, satp, addr) == SimWalk(mem, satp, addr).value
  {
    hide FirstAddr, SecondAddr, SimPteAddr, SimBase, SimPpn, Has, IsPointer, Index0, Index1, SimPointer,
      FitsIn20Bits, Entry, Ppn, SimTable, SimWalk, SimLevel;
    FirstLevel(mem, satp, addr);
    var first := mem(FirstAddr(satp, Index1(addr)));
    if first.Some? && Has(first.value, PAGE_PRESENT) && IsPointer(first.value) {
      SameSecondAddr(first.value, addr);
      SecondLevel(mem, SimTable(first.value), first.value, addr);
    }
  }

  lemma SecondLevel(mem: Memory, base: Word, p: Word, addr: Word)
    requires SimPteAddr(base, addr, 0) == SecondAddr(p, Index0(addr)) && SimLevel(mem, base, addr, 0).Pte?
    ensures match mem(SecondAddr(p, Index0(addr)))
            case None => SimLevel(mem, base, addr, 0).value == 0
            case Some(q) => SimLevel(mem, base, addr, 0).value == if Has(q, PAGE_PRESENT) then PageEntry(q) else 0
  {
    hide FirstAddr, SecondAddr, SimPteAddr, SimBase, SimPpn, Has, IsPointer, Index0, Index1, SimPointer,
      FitsIn20Bits, Entry, Ppn, SimTable;
    var q := mem(SecondAddr(p, Index0(addr)));
    if q.Some? {
      SamePpn(q.value, addr);
    }
  }

  // ---------------------------------------------------------------- TLB soundness

  /** In every reachable state a valid instruction or data TLB entry for the page of `addr` is the
      entry the simulator's walk computes from `satp` and `mem`, superpages included, if in every
      clock from some `f` on satp and the words of that walk were as in `satp` and `mem`. Whatever else
      memory holds may change, and so may the walk's own words before `f`, a clock that forgets the
      page: after reset, at a flush, or when there is no entry and no walk for it. A flush that falls
      into a table read for the page, which it does not stop, counts only if the read is where the
      tables still lead. */
  lemma {:induction false} TlbIsSound(ins: seq<In>, f: nat, satp: Word, mem: Memory, addr: Word)
    requires LegalRun(START, ins) && f < |ins|
    requires Forgets(After(START, ins[..f]).s, ins[f], satp, mem, addr)
    requires AllKeep(ins[f..], satp, mem, addr)
    requires Has(satp, SATP_MODE) && SecondReadable(mem, satp, addr) && SimWalk(mem, satp, addr).Pte?
    ensures var s := After(START, ins).s;
            && (s.itlb.valid && s.itlb.page == Page(addr) ==> s.itlb.entry == SimWalk(mem, satp, addr).value)
            && (s.dtlb.valid && s.dtlb.page == Page(addr) ==> s.dtlb.entry == SimWalk(mem, satp, addr).value)
  {
    hide FirstAddr, SecondAddr, Has, SimWalk, TableWalk, Keeps, SecondReadable, Forgets;
    forall k | f <= k < |ins| ensures Keeps(ins[k], satp, mem, addr) {
      assert Keeps(ins[f..][k - f], satp, mem, addr);
    }
    TracksSince(ins, f, |ins|, satp, mem, addr);
    assert ins[..|ins|] == ins;
    TableWalkIsSimWalk(mem, satp, addr);
  }

  /** The premise on second-level reads is exact: when such a read fails, the simulator's entry is
      zero and the hardware's is zero just when the failed data has its present bit clear. */
  lemma {:induction false} SecondLevelErrorTakenIff(s: State, i: In)
    requires s.phase.Second? && RespValid(i) && RespError(i)
    ensures NextWalk(s, i).phase.Update? && (NextWalk(s, i).pteEntry == 0 <==> !Has(i.outData, PAGE_PRESENT))
  {
    var w := i.outData;
    assert w & 1 != 0 ==> ((w >> 10) << 12) | (w & 0x3ff) != 0;
  }

  // ---------------------------------------------------------------- translation

  datatype Translation = Physical(addr: Word) | PageFault | Abort

  predicate SimReserved(pte: Word) {
    var rwx := pte & (PAGE_EXEC | PAGE_READ | PAGE_WRITE);
    rwx == PAGE_WRITE || rwx == PAGE_EXEC | PAGE_WRITE
  }

  function SimPhysical(pte: Word, addr: Word): Word { ((pte >> 12) << 12) + (addr & 0xfff) }

  function SimData(priv: bv2, sum: bool, store: bool, pte: Word, addr: Word): Translation {
    var need := if store then PAGE_WRITE else PAGE_READ;
    if SimReserved(pte) then PageFault
    else if priv == PRIV_SUPER then
      if Has(pte, PAGE_USER) && !sum then Abort
      else if pte & need != need then PageFault else Physical(SimPhysical(pte, addr))
    else if pte & (need | PAGE_USER) != need | PAGE_USER then PageFault
    else Physical(SimPhysical(pte, addr))
  }

  function SimFetch(priv: bv2, pte: Word, addr: Word): Translation {
    if SimReserved(pte) then PageFault
    else if priv == PRIV_SUPER then
      if Has(pte, PAGE_USER) then Abort
      else if pte & PAGE_EXEC != PAGE_EXEC then PageFault else Physical(SimPhysical(pte, addr))
    else if pte & (PAGE_EXEC | PAGE_USER) != PAGE_EXEC | PAGE_USER then PageFault
    else Physical(SimPhysical(pte, addr))
  }

  lemma SamePhysical(pte: Word, addr: Word)
    ensures Translate(pte, addr) == SimPhysical(pte, addr)
  {
    assert (pte >> 12) << 12 == pte & 0xffff_f000;
    assert (pte & 0xffff_f000) + (addr & 0xfff) == (pte & 0xffff_f000) | (addr & 0xfff);
  }

  /** For every entry, reserved encodings included, the data-side permission checks agree with
      the simulator, as long as MXR is off and the simulator does not end. */
  lemma {:induction false} DataPermissionsAgree(priv: bv2, sum: bool, pte: Word, addr: Word)
    requires priv == PRIV_USER || priv == PRIV_SUPER
    ensures var t := SimData(priv, sum, false, pte, addr);
            !t.Abort? ==> t == if LoadDenied(priv, sum, false, pte) then PageFault else Physical(Translate(pte, addr))
    ensures var t := SimData(priv, sum, true, pte, addr);
            !t.Abort? ==> t == if StoreDenied(priv, sum, pte) then PageFault else Physical(Translate(pte, addr))
  {
    hide Translate, SimPhysical;
    SamePhysical(pte, addr);
  }

  /** A page that is writable, not readable and executable, and open to this privilege. */
  predicate RunsReserved(priv: bv2, pte: Word) {
    && Has(pte, PAGE_WRITE) && !Has(pte, PAGE_READ) && Has(pte, PAGE_EXEC)
    && (Has(pte, PAGE_USER) <==> priv == PRIV_USER)
  }

  /** Fetch permissions agree exactly for the entries that are not writable, executable and
      unreadable pages the hardware would run: those the simulator faults as reserved. */
  lemma {:induction false} FetchPermissionsAgreeIff(priv: bv2, pte: Word, addr: Word)
    requires priv == PRIV_USER || priv == PRIV_SUPER
    requires !SimFetch(priv, pte, addr).Abort?
    ensures (SimFetch(priv, pte, addr) == if FetchDenied(priv, pte) then PageFault else Physical(Translate(pte, addr)))
            <==> !RunsReserved(priv, pte)
  {
    hide Translate, SimPhysical;
    SamePhysical(pte, addr);
  }

  /** A data access that hits the TLB faults exactly when the simulator's walk and permission
      check fault, and otherwise goes to the same physical address. */
  lemma {:induction false} DataHitTranslatesLikeSimulator(ins: seq<In>, f: nat, i: In)
    requires LegalRun(START, ins) && f < |ins|
    requires Forgets(After(START, ins[..f]).s, ins[f], i.satp, i.mem, i.lsuAddr)
    requires AllKeep(ins[f..], i.satp, i.mem, i.lsuAddr)
    requires var r := After(START, ins);
             && Legal(r.s, r.e, i) && VmD(i) && DtlbHit(r.s, i) && Access(r.s, i) && !i.mxr && i.privD != 2
             && SecondReadable(i.mem, i.satp, i.lsuAddr) && SimWalk(i.mem, i.satp, i.lsuAddr).Pte?
    ensures var s := After(START, ins).s;
            var pte := SimWalk(i.mem, i.satp, i.lsuAddr).value;
            var load := SimData(i.privD, i.sum, false, pte, i.lsuAddr);
            var store := SimData(i.privD, i.sum, true, pte, i.lsuAddr);
            && (Load(s, i) && !load.Abort? ==> (LoadFault(s, i) <==> load.PageFault?))
            && (Store(s, i) != 0 && !store.Abort? ==> (StoreFault(s, i) <==> store.PageFault?))
            && (Load(s, i) && load.Physical? && !SrcMmu(s) ==> OutRd(s, i) && OutAddr(s, i) == load.addr)
            && (Store(s, i) != 0 && store.Physical? && !SrcMmu(s) ==>
                  OutWr(s, i) == Store(s, i) && OutAddr(s, i) == store.addr)
  {
    hide SimData, LoadDenied, StoreDenied, Translate, SimWalk, Has, SecondReadable, Forgets;
    TlbIsSound(ins, f, i.satp, i.mem, i.lsuAddr);
    DataPermissionsAgree(i.privD, i.sum, After(START, ins).s.dtlb.entry, i.lsuAddr);
  }

  /** A fetch that hits the TLB: where the simulator translates, it goes to the same physical
      address; where the simulator faults, it faults too, exactly unless the page is one that the
      simulator calls reserved and the hardware runs. */
  lemma {:induction false} FetchHitTranslatesLikeSimulator(ins: seq<In>, f: nat, i: In)
    requires LegalRun(START, ins) && f < |ins|
    requires Forgets(After(START, ins[..f]).s, ins[f], i.satp, i.mem, i.fetchPc)
    requires AllKeep(ins[f..], i.satp, i.mem, i.fetchPc)
    requires var r := After(START, ins);
             && Legal(r.s, r.e, i) && Has(i.satp, SATP_MODE)
             && VmI(i) && ItlbHit(r.s, i) && i.fetchPriv != 2
             && SecondReadable(i.mem, i.satp, i.fetchPc) && SimWalk(i.mem, i.satp, i.fetchPc).Pte?
    ensures var s := After(START, ins).s;
            var pte := SimWalk(i.mem, i.satp, i.fetchPc).value;
            var t := SimFetch(i.fetchPriv, pte, i.fetchPc);
            && (t.Physical? ==> FetchOut(s, i) && FetchPcOut(s, i) == t.addr)
            && (t.PageFault? ==>
                  (PcFault(s, i) && !FetchOut(s, i)
                   <==> !RunsReserved(i.fetchPriv, pte)))
  {
    hide SimFetch, FetchDenied, Translate, SimWalk, Has, SecondReadable, Forgets;
    TlbIsSound(ins, f, i.satp, i.mem, i.fetchPc);
    var pte := After(START, ins).s.itlb.entry;
    if SimFetch(i.fetchPriv, pte, i.fetchPc).Physical? {
      FetchPermissionsWhenTranslated(i.fetchPriv, pte, i.fetchPc);
    }
    if !SimFetch(i.fetchPriv, pte, i.fetchPc).Abort? {
      FetchPermissionsAgreeIff(i.fetchPriv, pte, i.fetchPc);
    }
  }

  lemma FetchPermissionsWhenTranslated(priv: bv2, pte: Word, addr: Word)
    requires SimFetch(priv, pte, addr).Physical?
    ensures !FetchDenied(priv, pte) && SimFetch(priv, pte, addr).addr == Translate(pte, addr)
  {
    hide Translate, SimPhysical;
    SamePhysical(pte, addr);
  }
}
