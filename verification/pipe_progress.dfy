/** The back end makes progress: whatever it holds, an instruction that is offered issues once memory
    and divider have acted often enough. */
module PipeProgress {
  import opened PipeModel
  import opened PipeProofs
  import opened PipeTheorems

  /** A blocking flag is up only for an instruction that will lower it. */
  predicate Flags(s: State) {
    && (s.divPending ==> s.e1.live && s.e1.instr.cls.Div?)
    && (s.csrPending ==> (s.e1.live && s.e1.instr.cls.Csr?) || (s.e2.live && s.e2.instr.cls.Csr?)
                         || (s.wb.live && s.wb.instr.cls.Csr?))
  }

  lemma FlagsStep(c: Config, s: State, i: In)
    requires Control(s) && Legal(s, i) && Flags(s)
    ensures Flags(Next(c, s, i))
  {
  }

  lemma {:induction false} FlagsHold(c: Config, ins: seq<In>)
    requires LegalRun(c, ins)
    ensures Flags(After(c, ins).s)
  {
    if ins != [] {
      var front, i := ins[..|ins| - 1], ins[|ins| - 1];
      FlagsHold(c, front);
      ControlReachable(c, front);
      FlagsStep(c, After(c, front).s, i);
    }
  }

  /** Nobody keeps the back end waiting: memory accepts a request and answers an open one, the divider
      completes, and an instruction is offered. */
  predicate Acts(s: State, i: In) {
    && (Requesting(s, i) ==> i.memAccept) && (s.pending ==> i.memAck) && (s.div.DivBusy? ==> i.divDone)
    && (i.fetchValid || s.resetQ)
  }

  /** Clocks in which all act that can still pass before an instruction issues. */
  function Rank(s: State): nat {
    if s.resetQ || s.squashQ then 2
    else if s.branchCsrQ then 1
    else
      (if s.e1.live then 3 else 0)
      + (if IsMemE2(s) && !s.pending && !s.unalignedE2 then 2 else if s.e2.live then 1 else 0)
      + (if s.e1.live || s.e2.live then 2 else if s.wb.live then 1 else 0)
  }

  /** Without an issue the rank never grows, and it drops when all act. */
  lemma RankDrops(c: Config, s: State, i: In)
    requires Inv(c, s) && Flags(s) && Legal(s, i) && !Issue(c, s, i)
    ensures Rank(Next(c, s, i)) + (if Acts(s, i) then 1 else 0) <= Rank(s)
  {
  }

  // ---------------------------------------------------------------- every run

  /** How often all acted after `before`. */
  function Acted(c: Config, before: seq<In>, ins: seq<In>): nat {
    if ins == [] then 0
    else
      var (front, i) := (ins[..|ins| - 1], ins[|ins| - 1]);
      Acted(c, before, front) + if Acts(After(c, before + front).s, i) then 1 else 0
  }

  lemma LastClock(c: Config, before: seq<In>, ins: seq<In>)
    requires ins != [] && LegalRun(c, before + ins) && !OrphanAccepted(c, before + ins)
    ensures var (front, i) := (before + ins[..|ins| - 1], ins[|ins| - 1]);
            && LegalRun(c, front) && !OrphanAccepted(c, front) && Legal(After(c, front).s, i)
            && After(c, before + ins) == StepRun(c, After(c, front), i)
            && (LeakFree(c, before + ins) <==> LeakFree(c, front) && !Leaks(After(c, front).s, i))
            && (i.memAccept ==> LeakFree(c, before + ins))
  {
    hide StepRun, Legal, Leaks;
    assert (before + ins)[..|before + ins| - 1] == before + ins[..|ins| - 1];
  }

  /** After a leak nothing acts any more without memory accepting the orphan. */
  lemma OrphanWaits(c: Config, front: seq<In>, i: In)
    requires LegalRun(c, front) && !OrphanAccepted(c, front) && Legal(After(c, front).s, i) && !i.memAccept
    requires !LeakFree(c, front) || Leaks(After(c, front).s, i)
    ensures !Acts(After(c, front).s, i)
  {
    ReachableUnlessAccepted(c, front);
  }

  lemma {:induction false} ActsAreFew(c: Config, before: seq<In>, ins: seq<In>)
    requires LegalRun(c, before + ins) && !OrphanAccepted(c, before + ins)
    ensures var (h, s', h') := (After(c, before).h, After(c, before + ins).s, After(c, before + ins).h);
            || |h'.issued| > |h.issued|
            || (h'.issued == h.issued
                && Acted(c, before, ins) + (if LeakFree(c, before + ins) then Rank(s') else 0) <= 7)
  {
    hide After, LegalRun, OrphanAccepted, LeakFree, Acts, Rank, StepRun, Inv, Flags, Leaks, Issue, Legal;
    if ins == [] {
      assert before + ins == before;
      RankBound(After(c, before).s);
    } else {
      var front, i := ins[..|ins| - 1], ins[|ins| - 1];
      LastClock(c, before, ins);
      ActsAreFew(c, before, front);
      var r := After(c, before + front);
      IssuedGrows(c, r, i);
      if LeakFree(c, before + ins) {
        InvAndFlags(c, before + front);
        if !Issue(c, r.s, i) {
          RankDrops(c, r.s, i);
        }
        assert StepRun(c, r, i).s == Next(c, r.s, i) by { StepOf(c, r, i); }
      } else {
        OrphanWaits(c, before + front, i);
      }
    }
  }

  lemma RankBound(s: State)
    ensures Rank(s) <= 7
  {
  }

  lemma StepOf(c: Config, r: Run, i: In)
    ensures StepRun(c, r, i).s == Next(c, r.s, i)
  {
  }

  lemma IssuedGrows(c: Config, r: Run, i: In)
    ensures StepRun(c, r, i).h.issued == r.h.issued + One(Issue(c, r.s, i), i.instr)
  {
  }

  lemma InvAndFlags(c: Config, ins: seq<In>)
    requires LegalRun(c, ins) && LeakFree(c, ins)
    ensures Inv(c, After(c, ins).s) && Flags(After(c, ins).s)
  {
    Reachable(c, ins);
    FlagsHold(c, ins);
  }

  /** After any run, in clocks of any kind among which all act eight times, an instruction issues, as
      long as memory accepts no orphan. */
  lemma {:induction false} OfferedInstructionIssues(c: Config, before: seq<In>, ins: seq<In>)
    requires LegalRun(c, before + ins) && !OrphanAccepted(c, before + ins) && Acted(c, before, ins) >= 8
    ensures |After(c, before + ins).h.issued| > |After(c, before).h.issued|
  {
    ActsAreFew(c, before, ins);
  }
}
