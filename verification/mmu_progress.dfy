/** Progress of the page table walker: bounded work per walk, return to idle, and how many walks
    a miss needs. */
module MmuProgress {
  import opened MmuModel
  import opened MmuProofs

  /** Steps of the memory a walk still waits for. The walker's request can first have to wait for
      a CPU request that already holds the port. */
  function Rank(s: State): nat {
    var hold := if s.readHold && !s.srcMmu then 1 else 0;
    match s.phase
    case Idle => 0
    case Update => 1
    case Second => if s.memReq then 3 + hold else 2
    case First => if s.memReq then 6 + hold else 5
  }

  /** Memory does what the walk waits for: it accepts the request at the port, or answers. */
  predicate MemoryActs(s: State, i: In) { if s.memReq then i.outAccept else s.phase.Update? || RespValid(i) }

  lemma RankDecreases(s: State, e: Env, i: In)
    requires Port(s, e) && Legal(s, e, i) && !s.phase.Idle?
    ensures Rank(Next(s, i)) <= Rank(s)
    ensures MemoryActs(s, i) ==> Rank(Next(s, i)) < Rank(s)
  {
    hide FirstAddr, SecondAddr, SuperEntry, PageEntry, Has, IsPointer, Index0, Index1, Page, RequestAddr, NextItlb,
      NextDtlb, CpuRd, CpuWr, LsuAccept, Store;
    PhaseStep(s, i);
    MemReqStep(s, i);
    PortHolds(s, i);
  }

  lemma PhaseStep(s: State, i: In)
    requires !s.phase.Idle?
    ensures var t := Next(s, i);
            match s.phase
            case Idle => false
            case Update => t.phase.Idle?
            case First => t.phase == if !RespValid(i) then First else if FirstIsPointer(i) then Second else Update
            case Second => t.phase == if RespValid(i) then Update else Second
  {
    hide FirstAddr, SecondAddr, SuperEntry, PageEntry, Index0, Index1, Page, RequestAddr, NextItlb, NextDtlb,
      LsuAccept, OutRd, OutWr, Has, IsPointer, MmuAccept;
  }

  lemma MemReqStep(s: State, i: In)
    requires !s.phase.Idle?
    ensures Next(s, i).memReq == if s.phase.First? && RespValid(i) && FirstIsPointer(i) then true
                                 else if MmuAccept(s, i) then false else s.memReq
  {
    hide NextItlb, NextDtlb, NextWalk, LsuAccept, OutRd, OutWr, Has, IsPointer, MmuAccept, FirstIsPointer, RespValid;
  }

  /** A request the port has not accepted stays where it is. */
  lemma PortHolds(s: State, i: In)
    ensures var t := Next(s, i); t.readHold && !t.srcMmu ==> !i.outAccept && !SrcMmu(s)
  {
    hide FirstAddr, SecondAddr, SuperEntry, PageEntry, Index0, Index1, Page, RequestAddr, NextItlb, NextDtlb, CpuRd,
      CpuWr, NextWalk, LsuAccept;
  }

  /** While a walk runs, the port carries its reads and never a write, at the entry's address. */
  lemma {:induction false} WalkerNeverWrites(s: State, e: Env, i: In)
    requires Port(s, e) && SrcMmu(s)
    ensures OutWr(s, i) == 0 && OutRd(s, i) && OutAddr(s, i) == s.pteAddr
  {
  }

  // ---------------------------------------------------------------- one walk

  /** Cycles of a run in which memory acts. */
  function Acts(r: Run, ins: seq<In>): nat
    decreases |ins|
  {
    if ins == [] then 0
    else
      var front := ins[..|ins| - 1];
      Acts(r, front) + if MemoryActs(After(r, front).s, ins[|ins| - 1]) then 1 else 0
  }

  predicate StaysBusy(r: Run, ins: seq<In>)
    decreases |ins|
  {
    !After(r, ins).s.phase.Idle? && (ins == [] || StaysBusy(r, ins[..|ins| - 1]))
  }

  /** A walk ends: as long as it has not returned to idle, memory has acted fewer times than the
      walk's rank, which is at most seven; so it returns to idle within seven acts of memory,
      whatever else happens on the port. */
  lemma {:induction false} WalkReturnsToIdle(r: Run, ins: seq<In>)
    requires Port(r.s, r.e) && LegalRun(r, ins) && StaysBusy(r, ins)
    ensures Acts(r, ins) + Rank(After(r, ins).s) <= Rank(r.s) <= 7 && Acts(r, ins) < 7
    decreases |ins|
  {
    if ins != [] {
      var front := ins[..|ins| - 1];
      WalkReturnsToIdle(r, front);
      PortAlong(r, front);
      RankDecreases(After(r, front).s, After(r, front).e, ins[|ins| - 1]);
    }
  }

  /** A walk that returns to idle has read one or two entries. */
  lemma {:induction false} OneOrTwoReads(s: State, e: Env, i: In)
    requires Port(s, e) && Legal(s, e, i) && !s.phase.Idle? && Next(s, i).phase.Idle?
    ensures 1 <= NextEnv(s, e, i).ptes <= 2
  {
  }

  // ---------------------------------------------------------------- how many walks a miss needs

  /** The page `p` is requested on the data side in every cycle of the run, without a flush. */
  predicate DataStable(r: Run, ins: seq<In>, p: Word)
    decreases |ins|
  {
    ins == [] ||
    var front, i := ins[..|ins| - 1], ins[|ins| - 1];
    var s := After(r, front).s;
    DataStable(r, front, p) && !i.flush && Page(LsuAddr(s, i)) == p
  }

  /** Data walks that finish in the run. */
  function DataWalks(r: Run, ins: seq<In>): nat
    decreases |ins|
  {
    if ins == [] then 0
    else
      var front, s := ins[..|ins| - 1], After(r, ins[..|ins| - 1]).s;
      DataWalks(r, front) + if s.phase.Update? && s.dtlbReq then 1 else 0
  }

  predicate DataProgress(s: State, walks: nat, p: Word) {
    && walks <= 1
    && (walks == 1 ==> s.dtlb.valid && s.dtlb.page == p && (s.phase.Idle? || !s.dtlbReq))
    && (!s.phase.Idle? && s.dtlbReq ==> Page(s.virtAddr) == p)
  }

  lemma DataProgressStep(s: State, i: In, walks: nat, p: Word)
    requires DataProgress(s, walks, p) && !i.flush && Page(LsuAddr(s, i)) == p
    ensures DataProgress(Next(s, i), walks + if s.phase.Update? && s.dtlbReq then 1 else 0, p)
  {
    hide FirstAddr, SecondAddr, SuperEntry, PageEntry, Has, IsPointer, Index0, Index1, Page, LsuAccept, OutRd,
      OutWr, NextItlb, LsuAddr;
  }

  /** A data miss at a stable page hits after one walk, and no further data walk starts. */
  lemma {:induction false} DataMissNeedsOneWalk(r: Run, ins: seq<In>, p: Word)
    requires Port(r.s, r.e) && r.s.phase.Idle? && LegalRun(r, ins) && DataStable(r, ins, p)
    ensures DataProgress(After(r, ins).s, DataWalks(r, ins), p)
    decreases |ins|
  {
    if ins != [] {
      var front := ins[..|ins| - 1];
      DataMissNeedsOneWalk(r, front, p);
      DataProgressStep(After(r, front).s, ins[|ins| - 1], DataWalks(r, front), p);
    }
  }

  predicate FetchStable(r: Run, ins: seq<In>, p: Word)
    decreases |ins|
  {
    ins == [] ||
    var front, i := ins[..|ins| - 1], ins[|ins| - 1];
    FetchStable(r, front, p) && !i.flush && i.fetchRd && Page(i.fetchPc) == p
  }

  function FetchWalks(r: Run, ins: seq<In>): nat
    decreases |ins|
  {
    if ins == [] then 0
    else
      var front, s := ins[..|ins| - 1], After(r, ins[..|ins| - 1]).s;
      FetchWalks(r, front) + if s.phase.Update? && !s.dtlbReq then 1 else 0
  }

  predicate FetchProgress(s: State, walks: nat, p: Word) {
    && walks <= 2
    && (walks >= 1 ==> s.itlb.page == p)
    && (walks == 2 ==> s.itlb.valid && (s.phase.Idle? || s.dtlbReq))
    && (!s.phase.Idle? && !s.dtlbReq ==> Page(s.virtAddr) == p)
  }

  lemma FetchProgressStep(s: State, i: In, walks: nat, p: Word)
    requires FetchProgress(s, walks, p) && !i.flush && i.fetchRd && Page(i.fetchPc) == p
    ensures FetchProgress(Next(s, i), walks + if s.phase.Update? && !s.dtlbReq then 1 else 0, p)
  {
    hide FirstAddr, SecondAddr, SuperEntry, PageEntry, Has, IsPointer, Index0, Index1, Page, LsuAccept, OutRd,
      OutWr, NextDtlb, LsuAddr;
  }

  /** An instruction miss at a stable pc hits after at most two instruction walks, however many
      data walks come between: the first leaves its tag, the second finds it there. */
  lemma {:induction false} FetchMissNeedsTwoWalks(r: Run, ins: seq<In>, p: Word)
    requires Port(r.s, r.e) && r.s.phase.Idle? && LegalRun(r, ins) && FetchStable(r, ins, p)
    ensures FetchProgress(After(r, ins).s, FetchWalks(r, ins), p)
    decreases |ins|
  {
    if ins != [] {
      var front := ins[..|ins| - 1];
      FetchMissNeedsTwoWalks(r, front, p);
      FetchProgressStep(After(r, front).s, ins[|ins| - 1], FetchWalks(r, front), p);
    }
  }
}
