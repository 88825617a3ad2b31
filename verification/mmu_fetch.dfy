/** The fetch unit in front of the MMU: a walk for an instruction keeps its page by itself, because
    fetch is not accepted, and does not move, while its page is being looked up. */
module MmuFetch {
  import opened MmuModel
  import opened MmuProofs
  import opened MmuTheorems
  import W = Words
  import F = Fetch

  /** How addresses and privileges of the two models correspond. */
  datatype Code = Code(bits: W.Word -> Word, priv: nat -> bv2)

  datatype Both = Both(m: Run, f: F.State)
  datatype Clock = Clock(i: In, fetch: F.In, cacheAccept: bool)

  /** The answer to fetch's request: the cache's, once the TLB hits, or a fault. */
  predicate FetchAccept(s: State, i: In, cacheAccept: bool) {
    (!VmI(i) && cacheAccept) || (VmI(i) && ItlbHit(s, i) && cacheAccept) || PcFault(s, i)
  }

  predicate Wired(c: Code, b: Both, k: Clock) {
    && k.i.fetchRd == F.Rd(b.f, k.fetch)
    && k.i.fetchPc == c.bits(F.Align(b.f.pc.f)) && k.i.fetchPriv == c.priv(b.f.pc.privF)
    && k.fetch.icAccept == FetchAccept(b.m.s, k.i, k.cacheAccept)
  }

  /** `Legal` without the instruction half of page stability. */
  predicate DataLegal(s: State, e: Env, i: In) {
    && (!s.phase.Idle? && s.dtlbReq ==> Page(LsuAddr(s, i)) == Page(s.virtAddr))
    && (RespValid(i) ==> e.outstanding && Answers(i.mem(s.pteAddr), i))
  }

  function NextBoth(b: Both, k: Clock): Both { Both(StepRun(b.m, k.i), F.Next(b.f, k.fetch)) }

  function AfterBoth(bootAddr: W.Word, ks: seq<Clock>): Both {
    if ks == [] then Both(START, F.Reset(bootAddr)) else NextBoth(AfterBoth(bootAddr, ks[..|ks| - 1]), ks[|ks| - 1])
  }

  predicate WiredRun(c: Code, bootAddr: W.Word, ks: seq<Clock>) {
    ks == [] ||
    var (front, k) := (ks[..|ks| - 1], ks[|ks| - 1]);
    var b := AfterBoth(bootAddr, front);
    WiredRun(c, bootAddr, front) && Wired(c, b, k) && DataLegal(b.m.s, b.m.e, k.i)
  }

  function Mmus(ks: seq<Clock>): (ins: seq<In>)
    ensures |ins| == |ks|
  {
    if ks == [] then [] else Mmus(ks[..|ks| - 1]) + [ks[|ks| - 1].i]
  }

  /** During a walk for an instruction fetch stands on its page, and the TLB has no entry for it. */
  predicate FetchHeld(c: Code, s: State, f: F.State) {
    !s.phase.Idle? && !s.dtlbReq ==>
      && Page(c.bits(F.Align(f.pc.f))) == Page(s.virtAddr) && c.priv(f.pc.privF) != PRIV_MACHINE
      && !(s.itlb.valid && s.itlb.page == Page(s.virtAddr))
  }

  lemma HeldStep(c: Code, b: Both, k: Clock)
    requires FetchHeld(c, b.m.s, b.f) && Wired(c, b, k)
    ensures FetchHeld(c, NextBoth(b, k).m.s, NextBoth(b, k).f)
  {
    hide FirstAddr, SecondAddr, SuperEntry, PageEntry, IsPointer, Has, Index0, Index1, Page, Next, NextDtlb,
      LsuAddr, FetchDenied, F.Align;
    NextParts(b.m.s, k.i);
  }

  /** Every run of fetch and MMU together meets the premise on pages, as far as instructions go. */
  lemma {:induction false} FetchKeepsItsPage(c: Code, bootAddr: W.Word, ks: seq<Clock>)
    requires WiredRun(c, bootAddr, ks)
    ensures var b := AfterBoth(bootAddr, ks);
            LegalRun(START, Mmus(ks)) && b.m == After(START, Mmus(ks)) && FetchHeld(c, b.m.s, b.f)
  {
    if ks != [] {
      var n := |ks| - 1;
      FetchKeepsItsPage(c, bootAddr, ks[..n]);
      assert Mmus(ks)[..n] == Mmus(ks[..n]);
      HeldStep(c, AfterBoth(bootAddr, ks[..n]), ks[n]);
    }
  }

  /** So the TLBs are sound in the core on less: only the load/store unit has to keep its page. */
  lemma {:induction false} TlbIsSoundWithFetch(
      c: Code, bootAddr: W.Word, ks: seq<Clock>, f: nat, satp: Word, mem: Memory, addr: Word)
    requires WiredRun(c, bootAddr, ks) && f < |ks|
    requires Forgets(AfterBoth(bootAddr, ks[..f]).m.s, ks[f].i, satp, mem, addr)
    requires forall k :: f <= k < |ks| ==> Keeps(ks[k].i, satp, mem, addr)
    requires Has(satp, SATP_MODE) && SecondReadable(mem, satp, addr) && SimWalk(mem, satp, addr).Pte?
    ensures var s := AfterBoth(bootAddr, ks).m.s;
            && (s.itlb.valid && s.itlb.page == Page(addr) ==> s.itlb.entry == SimWalk(mem, satp, addr).value)
            && (s.dtlb.valid && s.dtlb.page == Page(addr) ==> s.dtlb.entry == SimWalk(mem, satp, addr).value)
  {
    hide SimWalk, Has, SecondReadable, Forgets, Keeps, Legal, Wired, DataLegal, After, AfterBoth, LegalRun;
    FetchKeepsItsPage(c, bootAddr, ks);
    Prefix(c, bootAddr, ks, f);
    FetchKeepsItsPage(c, bootAddr, ks[..f]);
    var ins := Mmus(ks);
    forall k | 0 <= k < |ins[f..]| ensures Keeps(ins[f..][k], satp, mem, addr) {
      MmusAt(ks, f + k);
    }
    MmusAt(ks, f);
    TlbIsSound(ins, f, satp, mem, addr);
  }

  lemma {:induction false} MmusAt(ks: seq<Clock>, n: nat)
    requires n < |ks|
    ensures Mmus(ks)[n] == ks[n].i
  {
    if n < |ks| - 1 {
      MmusAt(ks[..|ks| - 1], n);
    }
  }

  lemma {:induction false} Prefix(c: Code, bootAddr: W.Word, ks: seq<Clock>, n: nat)
    requires WiredRun(c, bootAddr, ks) && n <= |ks|
    ensures WiredRun(c, bootAddr, ks[..n]) && Mmus(ks[..n]) == Mmus(ks)[..n]
  {
    hide Wired, DataLegal, AfterBoth;
    if n < |ks| {
      Prefix(c, bootAddr, ks[..|ks| - 1], n);
      assert ks[..|ks| - 1][..n] == ks[..n];
    } else {
      assert ks[..n] == ks;
    }
  }
}
