/** The TLBs of the memory management unit against a plain two-level page walk, and progress of
    the walker. */
module MmuProofs {
  import opened Options
  import opened MmuModel

  // ---------------------------------------------------------------- the plain walk

  /** What the walker finds for an address under one set of tables. A failing second-level read
      is not noticed by the hardware; `SecondReadable` excludes it. */
  function TableWalk(mem: Memory, satp: Word, addr: Word): Word {
    match mem(FirstAddr(satp, Index1(addr)))
    case None => 0
    case Some(p) =>
      if !Has(p, PAGE_PRESENT) then 0
      else if !IsPointer(p) then SuperEntry(p, Index0(addr))
      else match mem(SecondAddr(p, Index0(addr)))
           case None => 0
           case Some(q) => if Has(q, PAGE_PRESENT) then PageEntry(q) else 0
  }

  predicate SecondReadable(mem: Memory, satp: Word, addr: Word) {
    var first := mem(FirstAddr(satp, Index1(addr)));
    first.Some? && Has(first.value, PAGE_PRESENT) && IsPointer(first.value) ==> mem(SecondAddr(first.value, Index0(addr))).Some?
  }

  lemma IndicesDependOnPage(a: Word, b: Word)
    requires Page(a) == Page(b)
    ensures Index1(a) == Index1(b) && Index0(a) == Index0(b)
  {
    assert (a >> 12) >> 10 == a >> 22 && (b >> 12) >> 10 == b >> 22;
  }

  // ---------------------------------------------------------------- the port

  /** One read per level is asked for or outstanding, never both; the request mux holds the
      walker only while it asks. */
  predicate Port(s: State, e: Env) {
    && (s.phase.Idle? || s.phase.Update? ==> !s.memReq && !e.outstanding)
    && (s.phase.First? || s.phase.Second? ==> (s.memReq <==> !e.outstanding))
    && (s.readHold && s.srcMmu ==> s.memReq)
    && (s.phase.First? ==> e.ptes == if s.memReq then 0 else 1)
    && (s.phase.Second? ==> e.ptes == if s.memReq then 1 else 2)
    && (s.phase.Update? ==> 1 <= e.ptes <= 2)
  }

  lemma PortStep(s: State, e: Env, i: In)
    requires Port(s, e) && Legal(s, e, i)
    ensures Port(Next(s, i), NextEnv(s, e, i))
  {
  }

  // ---------------------------------------------------------------- soundness invariant

  /** satp and the words that a walk for `addr` reads are in this clock as in `satp` and `mem`. */
  predicate Keeps(i: In, satp: Word, mem: Memory, addr: Word) {
    var first := mem(FirstAddr(satp, Index1(addr)));
    && i.satp == satp
    && i.mem(FirstAddr(satp, Index1(addr))) == first
    && (first.Some? && Has(first.value, PAGE_PRESENT) && IsPointer(first.value) ==>
          i.mem(SecondAddr(first.value, Index0(addr))) == mem(SecondAddr(first.value, Index0(addr))))
  }

  predicate AllKeep(ins: seq<In>, satp: Word, mem: Memory, addr: Word) {
    forall k :: 0 <= k < |ins| ==> Keeps(ins[k], satp, mem, addr)
  }

  /** `entry` is what the tables say about `addr`. */
  predicate Agrees(satp: Word, mem: Memory, addr: Word, entry: Word) {
    SecondReadable(mem, satp, addr) ==> entry == TableWalk(mem, satp, addr)
  }

  predicate TlbAgrees(t: Tlb, satp: Word, mem: Memory, addr: Word) {
    t.valid && t.page == Page(addr) ==> Agrees(satp, mem, addr, t.entry)
  }

  /** A walk for the page of `addr` is where the tables lead. */
  predicate WalkAgrees(w: Walk, satp: Word, mem: Memory, addr: Word) {
    Page(w.virtAddr) == Page(addr) ==>
      match w.phase
      case Idle => true
      case First => w.pteAddr == FirstAddr(satp, Index1(addr))
      case Second =>
        var first := mem(FirstAddr(satp, Index1(addr)));
        && first.Some? && Has(first.value, PAGE_PRESENT) && IsPointer(first.value)
        && w.pteAddr == SecondAddr(first.value, Index0(addr))
      case Update => Agrees(satp, mem, addr, w.pteEntry)
  }

  predicate Tracks(s: State, satp: Word, mem: Memory, addr: Word) {
    && WalkAgrees(WalkOf(s), satp, mem, addr)
    && TlbAgrees(s.itlb, satp, mem, addr) && TlbAgrees(s.dtlb, satp, mem, addr)
  }

  lemma StartAgrees(s: State, i: In, satp: Word, mem: Memory, addr: Word)
    requires StartWalk(s, i) && i.satp == satp
    ensures WalkAgrees(NextWalk(s, i), satp, mem, addr)
  {
    hide FirstAddr, SecondAddr, SuperEntry, PageEntry, IsPointer, Has, Index0, Index1, RequestAddr, Page, ItlbMiss,
      DtlbMiss;
    if Page(RequestAddr(s, i)) == Page(addr) {
      IndicesDependOnPage(RequestAddr(s, i), addr);
    }
  }

  lemma FirstAnswer(s: State, e: Env, i: In, satp: Word, mem: Memory, addr: Word)
    requires s.phase.First? && Legal(s, e, i) && RespValid(i) && Keeps(i, satp, mem, addr)
    requires WalkAgrees(WalkOf(s), satp, mem, addr)
    ensures WalkAgrees(NextWalk(s, i), satp, mem, addr)
  {
    assert !StartWalk(s, i);
    hide FirstAddr, SecondAddr, SuperEntry, PageEntry, IsPointer, Has, Index0, Index1, RequestAddr, Page, RespError,
      RespValid, StartWalk;
    if Page(s.virtAddr) == Page(addr) {
      IndicesDependOnPage(RequestAddr(s, i), addr);
      FirstAnswerMeans(satp, mem, addr, i.outData, RespError(i));
    }
  }

  /** The three ways a first-level answer ends, against the table walk. */
  lemma FirstAnswerMeans(satp: Word, mem: Memory, addr: Word, data: Word, failed: bool)
    requires var first := mem(FirstAddr(satp, Index1(addr))); if failed then first.None? else first == Some(data)
    ensures failed || !Has(data, PAGE_PRESENT) ==> Agrees(satp, mem, addr, 0)
    ensures !failed && Has(data, PAGE_PRESENT) && !IsPointer(data) ==> Agrees(satp, mem, addr, SuperEntry(data, Index0(addr)))
  {
    hide FirstAddr, SecondAddr, SuperEntry, PageEntry, IsPointer, Has, Index0, Index1;
  }

  lemma SecondAnswer(s: State, e: Env, i: In, satp: Word, mem: Memory, addr: Word)
    requires s.phase.Second? && Legal(s, e, i) && RespValid(i) && Keeps(i, satp, mem, addr)
    requires WalkAgrees(WalkOf(s), satp, mem, addr)
    ensures WalkAgrees(NextWalk(s, i), satp, mem, addr)
  {
    assert !StartWalk(s, i);
    hide FirstAddr, SecondAddr, SuperEntry, PageEntry, IsPointer, Has, Index0, Index1, RequestAddr, Page, StartWalk;
  }

  lemma WalkStep(s: State, e: Env, i: In, satp: Word, mem: Memory, addr: Word)
    requires Legal(s, e, i) && Keeps(i, satp, mem, addr) && WalkAgrees(WalkOf(s), satp, mem, addr)
    ensures WalkAgrees(NextWalk(s, i), satp, mem, addr)
  {
    hide FirstAddr, SecondAddr, SuperEntry, PageEntry, IsPointer, Has, Index0, Index1, RequestAddr, Page, ItlbMiss,
      DtlbMiss;
    if StartWalk(s, i) {
      StartAgrees(s, i, satp, mem, addr);
    } else if s.phase.First? && RespValid(i) {
      FirstAnswer(s, e, i, satp, mem, addr);
    } else if s.phase.Second? && RespValid(i) {
      SecondAnswer(s, e, i, satp, mem, addr);
    }
  }

  /** A clock in which the tables of `addr` are as given keeps everything about its page in agreement. */
  lemma TracksStep(s: State, e: Env, i: In, satp: Word, mem: Memory, addr: Word)
    requires Tracks(s, satp, mem, addr) && Legal(s, e, i) && Keeps(i, satp, mem, addr)
    ensures Tracks(Next(s, i), satp, mem, addr)
  {
    WalkStep(s, e, i, satp, mem, addr);
    hide Agrees, Keeps, Legal, Page, LsuAccept, OutRd, OutWr, StartWalk, RequestAddr, NextWalk, FirstAddr,
      SecondAddr, Has, IsPointer;
  }

  /** A table read for the page of `addr` is under way. */
  predicate Walking(s: State, addr: Word) { (s.phase.First? || s.phase.Second?) && Page(s.virtAddr) == Page(addr) }

  /** Nothing is known of the page of `addr`: no entry, and no walk in any phase. */
  predicate Forgotten(s: State, addr: Word) {
    && (s.phase.Idle? || Page(s.virtAddr) != Page(addr))
    && !(s.itlb.valid && s.itlb.page == Page(addr)) && !(s.dtlb.valid && s.dtlb.page == Page(addr))
  }

  /** What the tables were before this clock no longer matters to the page: nothing is known of it, or
      a flush comes and no read for it is under way, unless at an address where the tables still lead. */
  predicate Forgets(s: State, i: In, satp: Word, mem: Memory, addr: Word) {
    Forgotten(s, addr) || (i.flush && (Walking(s, addr) ==> WalkAgrees(WalkOf(s), satp, mem, addr)))
  }

  lemma NextParts(s: State, i: In)
    ensures var n := Next(s, i); WalkOf(n) == NextWalk(s, i) && n.itlb == NextItlb(s, i) && n.dtlb == NextDtlb(s, i)
  {
    hide NextWalk, NextItlb, NextDtlb, LsuAccept, OutRd, OutWr, StartWalk, FirstIsPointer;
  }

  /** A flush forgets what the tables were, unless a walk is reading them at a place they have left. */
  lemma FlushStep(s: State, e: Env, i: In, satp: Word, mem: Memory, addr: Word)
    requires i.flush && Legal(s, e, i) && Keeps(i, satp, mem, addr)
    requires Walking(s, addr) ==> WalkAgrees(WalkOf(s), satp, mem, addr)
    ensures Tracks(Next(s, i), satp, mem, addr)
  {
    hide FirstAddr, SecondAddr, SuperEntry, PageEntry, IsPointer, Has, Index0, Index1, RequestAddr, Page, ItlbMiss,
      DtlbMiss, Next, Agrees;
    NextParts(s, i);
    if Walking(s, addr) {
      WalkStep(s, e, i, satp, mem, addr);
    } else if StartWalk(s, i) {
      StartAgrees(s, i, satp, mem, addr);
    }
  }

  /** Why a flush that falls into a table read need not forget: the walk goes on with the address it
      has, and what is read there becomes a valid entry, whatever the tables now are. On the
      instruction side that takes a tag left by an earlier walk for the page. */
  lemma {:induction false} FlushDoesNotStopAWalk(s: State, i: In, j: In, k: In)
    requires s.phase.Second? && i.flush && !RespValid(i)
    requires RespValid(j) && Has(j.outData, PAGE_PRESENT) && !k.flush
    requires s.dtlbReq || s.itlb.page == Page(k.fetchPc)
    ensures var s1 := Next(s, i); var s2 := Next(s1, j); var s3 := Next(s2, k);
            && !s1.itlb.valid && !s1.dtlb.valid && s1.pteAddr == s.pteAddr
            && (if s.dtlbReq then s3.dtlb else s3.itlb) == Tlb(true, Page(s.virtAddr), PageEntry(j.outData))
  {
    hide Page, PageEntry, Has, RespValid, LsuAccept, OutRd, OutWr, Next, RequestAddr;
    NextParts(s, i);
    NextParts(Next(s, i), j);
    NextParts(Next(Next(s, i), j), k);
    DtlbReqKept(s, i);
    DtlbReqKept(Next(s, i), j);
  }

  lemma DtlbReqKept(s: State, i: In)
    ensures !s.phase.Idle? ==> NextWalk(s, i).dtlbReq == s.dtlbReq && NextWalk(s, i).virtAddr == s.virtAddr
  {
    hide Page, PageEntry, Has, RespValid, RequestAddr;
  }

  lemma Cut(r: Run, ins: seq<In>, k: nat)
    requires k <= |ins| && LegalRun(r, ins)
    ensures LegalRun(r, ins[..k])
    ensures k < |ins| ==> After(r, ins[..k + 1]) == StepRun(After(r, ins[..k]), ins[k])
                          && Legal(After(r, ins[..k]).s, After(r, ins[..k]).e, ins[k])
    decreases |ins| - k
  {
    if k < |ins| {
      Cut(r, ins, k + 1);
      assert ins[..k + 1][..k] == ins[..k];
    } else {
      assert ins[..k] == ins;
    }
  }

  lemma ForgottenTracks(s: State, satp: Word, mem: Memory, addr: Word)
    requires Forgotten(s, addr)
    ensures Tracks(s, satp, mem, addr)
  {
  }

  lemma ForgetStep(s: State, e: Env, i: In, satp: Word, mem: Memory, addr: Word)
    requires Forgets(s, i, satp, mem, addr) && Legal(s, e, i) && Keeps(i, satp, mem, addr)
    ensures Tracks(Next(s, i), satp, mem, addr)
  {
    hide Keeps, Legal, Walking, Forgotten, Tracks, Next;
    if Forgotten(s, addr) {
      ForgottenTracks(s, satp, mem, addr);
      TracksStep(s, e, i, satp, mem, addr);
    } else {
      FlushStep(s, e, i, satp, mem, addr);
    }
  }

  /** From a clock `f` that forgets the page, such as the first, agreement lasts as long as satp and
      the words on the page's path do. */
  lemma {:induction false} TracksSince(ins: seq<In>, f: nat, n: nat, satp: Word, mem: Memory, addr: Word)
    requires LegalRun(START, ins) && f < n <= |ins|
    requires Forgets(After(START, ins[..f]).s, ins[f], satp, mem, addr)
    requires forall k :: f <= k < n ==> Keeps(ins[k], satp, mem, addr)
    ensures Tracks(After(START, ins[..n]).s, satp, mem, addr)
  {
    hide Keeps, Legal, Forgets, Tracks, Next, NextEnv, After, LegalRun;
    Cut(START, ins, n - 1);
    var r := After(START, ins[..n - 1]);
    if n - 1 > f {
      TracksSince(ins, f, n - 1, satp, mem, addr);
      TracksStep(r.s, r.e, ins[n - 1], satp, mem, addr);
    } else {
      ForgetStep(r.s, r.e, ins[f], satp, mem, addr);
    }
  }

  lemma {:induction false} PortAlong(r: Run, ins: seq<In>)
    requires Port(r.s, r.e) && LegalRun(r, ins)
    ensures Port(After(r, ins).s, After(r, ins).e)
    decreases |ins|
  {
    if ins != [] {
      var front := ins[..|ins| - 1];
      PortAlong(r, front);
      PortStep(After(r, front).s, After(r, front).e, ins[|ins| - 1]);
    }
  }
}
