/** The core executes the program in instruction memory: control flow, forwarding, squashing and
    fetching together, over every run. */
module CoreTheorems {
  import opened Options
  import opened PipeModel
  import opened PipeProofs
  import opened PipeTheorems
  import opened CoreModel
  import W = Words
  import F = Fetch

  // ---------------------------------------------------------------- invariants

  /** A redirect by the CSR unit is on its way. */
  predicate Redirecting(s: State) { s.squashQ || s.branchCsrQ || s.resetQ }

  /** Nothing was executed after the last trap, or nothing at all. */
  predicate AwaitsVector(os: seq<Outcome>) {
    os == [] || os[|os| - 1].Trap? || (os[|os| - 1].Squashed? && AwaitsVector(os[..|os| - 1]))
  }

  /** A branch that may commit has an aligned target. */
  predicate BranchOk(u: Units, live: bool, exc: Exc, n: Instr, a: Word, b: Word) {
    live && exc == NO_EXC && n.cls.Branch? ==> !u.badTarget(n, a, b)
  }

  predicate Branches(u: Units, s: State) {
    && BranchOk(u, s.e1.live, s.e1.exc, s.e1.instr, s.e1.opA, s.e1.opB)
    && BranchOk(u, s.e2.live, s.e2.exc, s.e2.instr, s.e2.opA, s.e2.opB)
    && BranchOk(u, s.wb.live, s.wb.exc, s.wb.instr, s.wb.opA, s.wb.opB)
  }

  /** As fetch sees it: where it continues after this instruction. */
  function Refetch(m: Machine, n: Instr, at: Pc, a: Word, b: Word): Pc {
    var next := Following(m, n, at, a, b);
    F.Target(F.Align(next.pc), next.priv)
  }

  function AfterWBAt(m: Machine, s: State, h: Hist, t: Trail): Pc {
    if s.wb.live then Refetch(m, s.wb.instr, t.wb, s.wb.opA, s.wb.opB) else Where(m, h.outcomes, t.vectors)
  }

  function AfterE2At(m: Machine, s: State, h: Hist, t: Trail): Pc {
    if s.e2.live then Refetch(m, s.e2.instr, t.e2, s.e2.opA, s.e2.opB) else AfterWBAt(m, s, h, t)
  }

  function AfterE1At(m: Machine, s: State, h: Hist, t: Trail): Pc {
    if s.e1.live then Refetch(m, s.e1.instr, t.e1, s.e1.opA, s.e1.opB) else AfterE2At(m, s, h, t)
  }

  /** Each stage holds the instruction that follows the older ones, all the way from the sequential
      machine to WB; it is the one memory holds there. */
  predicate Chained(m: Machine, s: State, h: Hist, t: Trail) {
    && (s.wb.live ==> t.wb == Where(m, h.outcomes, t.vectors) && s.wb.instr == Fetched(m, t.wb))
    && (!Redirecting(s) && s.e2.live ==> t.e2 == AfterWBAt(m, s, h, t) && s.e2.instr == Fetched(m, t.e2))
    && (!Redirecting(s) && s.e1.live ==> t.e1 == AfterE2At(m, s, h, t) && s.e1.instr == Fetched(m, t.e1))
  }

  /** The place of the next instruction that fetch will show. */
  function Position(h: F.Hist): Pc {
    if h.target.Some? then F.Target(F.PcAt(h.target.value.pc, |h.stream|), h.target.value.priv) else NOWHERE
  }

  /** Fetch continues behind the youngest instruction, unless a trap is about to drop it. */
  predicate InStep(m: Machine, r: Core) {
    !Redirecting(r.p.s) && r.p.s.e2.exc == NO_EXC ==>
      r.f.h.target.Some? && r.f.h.target.value.priv == r.t.priv && Position(r.f.h) == AfterE1At(m, r.p.s, r.p.h, r.t)
  }

  predicate Counted(s: State, h: Hist, t: Trail) {
    && |t.vectors| + (if s.branchCsrQ || s.resetQ then 1 else 0) == 1 + Traps(h.outcomes)
    && (s.branchCsrQ || s.resetQ ==> AwaitsVector(h.outcomes))
    && !(s.branchCsrQ && s.resetQ)
  }

  /** Every pc in sight is aligned. */
  predicate Aligned(m: Machine, h: Hist, t: Trail) {
    t.e1.pc % 4 == 0 && t.e2.pc % 4 == 0 && t.wb.pc % 4 == 0 && Where(m, h.outcomes, t.vectors).pc % 4 == 0
  }

  predicate Answered(m: Machine, h: F.Hist) {
    |h.answers| <= |h.asked| && forall k :: 0 <= k < |h.answers| ==> h.answers[k] == m.code(h.asked[k])
  }

  ghost predicate FetchOk(m: Machine, f: F.System) {
    F.Cache(f.s, f.h) && F.Tracks(f.s, f.h) && F.PrivKept(f.s, f.h) && F.Provenance(f.s, f.h) && Answered(m, f.h)
  }

  /** The instruction that commits next has the operands of sequential execution. */
  predicate Operands(u: Units, s: State, h: Hist) {
    s.wb.live && s.wb.exc == NO_EXC ==>
      var f := ExecAll(u, ZERO_REGS, h.outcomes);
      s.wb.opA == f[s.wb.instr.ra] && s.wb.opB == f[s.wb.instr.rb]
  }

  predicate PipeOk(m: Machine, s: State, h: Hist) {
    Control(s) && OrderOk(s, h) && Operands(m.c.u, s, h) && Branches(m.c.u, s)
  }

  predicate Program(m: Machine, r: Core) {
    var (s, h, t) := (r.p.s, r.p.h, r.t);
    Chained(m, s, h, t) && InStep(m, r) && Counted(s, h, t) && Aligned(m, h, t) && OnTrack(m, h.outcomes, t.vectors)
  }

  // ---------------------------------------------------------------- the sequential reference

  lemma Retires(m: Machine, os: seq<Outcome>, o: Outcome, vs: seq<Pc>)
    ensures Traps(os + [o]) == Traps(os) + (if o.Trap? then 1 else 0)
    ensures o.Squashed? ==> Where(m, os + [o], vs) == Where(m, os, vs)
    ensures o.Commit? ==>
              var (n, f) := (o.instr, ExecAll(m.c.u, ZERO_REGS, os));
              Where(m, os + [o], vs) == Following(m, n, Where(m, os, vs), f[n.ra], f[n.rb])
    ensures o.Trap? || (o.Squashed? && AwaitsVector(os)) ==> AwaitsVector(os + [o])
  {
    assert (os + [o])[..|os|] == os;
  }

  lemma OnTrackExtends(m: Machine, os: seq<Outcome>, o: Outcome, vs: seq<Pc>)
    requires OnTrack(m, os, vs)
    requires o.Squashed? || (Traps(os) < |vs| && o.instr == Fetched(m, Where(m, os, vs)))
    ensures OnTrack(m, os + [o], vs)
  {
    hide Where, Traps, Fetched;
    var os' := os + [o];
    assert os'[..|os|] == os;
    forall k | 0 <= k < |os'| && !os'[k].Squashed?
      ensures Traps(os'[..k]) < |vs| && os'[k].instr == Fetched(m, Where(m, os'[..k], vs))
    {
      if k < |os| {
        assert os'[..k] == os[..k];
      }
    }
  }

  /** A redirect made later does not change where the machine stood. */
  lemma {:induction false} WhereKept(m: Machine, os: seq<Outcome>, vs: seq<Pc>, v: Pc)
    requires Traps(os) < |vs|
    ensures Where(m, os, vs + [v]) == Where(m, os, vs)
  {
    if os != [] && !os[|os| - 1].Trap? {
      WhereKept(m, os[..|os| - 1], vs, v);
    }
  }

  lemma OnTrackKept(m: Machine, os: seq<Outcome>, vs: seq<Pc>, v: Pc)
    requires OnTrack(m, os, vs)
    ensures OnTrack(m, os, vs + [v])
  {
    hide Where, Traps, Fetched;
    forall k | 0 <= k < |os| && !os[k].Squashed?
      ensures Traps(os[..k]) < |vs + [v]| && os[k].instr == Fetched(m, Where(m, os[..k], vs + [v]))
    {
      WhereKept(m, os[..k], vs, v);
    }
  }

  lemma {:induction false} AwaitedVector(m: Machine, os: seq<Outcome>, vs: seq<Pc>)
    requires AwaitsVector(os)
    ensures Where(m, os, vs) == Vector(vs, Traps(os))
  {
    if os != [] && os[|os| - 1].Squashed? {
      AwaitedVector(m, os[..|os| - 1], vs);
    }
  }

  lemma Aligns(pc: W.Word)
    ensures F.Align(pc) % 4 == 0 && (pc % 4 == 0 ==> F.Align(pc) == pc && ((pc + 4) % W.W32) % 4 == 0)
  {
  }

  lemma FollowingAligned(m: Machine, n: Instr, at: Pc, a: Word, b: Word)
    requires Sound(m) && at.pc % 4 == 0 && (n.cls.Branch? ==> !m.c.u.badTarget(n, a, b))
    ensures Refetch(m, n, at, a, b) == Following(m, n, at, a, b) && Following(m, n, at, a, b).pc % 4 == 0
  {
    Aligns(at.pc);
    Aligns(Following(m, n, at, a, b).pc);
  }

  // ---------------------------------------------------------------- fetch

  /** What fetch shows is the instruction memory holds at the position it has reached. */
  lemma ShownIsFetched(m: Machine, f: F.System, i: F.In)
    requires FetchOk(m, f) && F.Legal(f.s, i) && F.Shown(f.s, i).Some?
    requires i.answer.Some? && f.h.asked != [] ==> i.answer.value == m.code(f.h.asked[|f.h.asked| - 1])
    ensures f.h.target.Some? && var (at, shown) := (Position(f.h), F.Shown(f.s, i).value);
            shown.pc == at.pc && shown.response == m.code(F.Read(at.pc, at.priv)) && at.pc % 4 == 0
  {
    F.PcAtStep(f.h.target.value.pc, |f.h.stream|);
  }

  lemma FetchStep(m: Machine, f: F.System, i: F.In)
    requires FetchOk(m, f) && F.Legal(f.s, i)
    requires i.answer.Some? && f.h.asked != [] ==> i.answer.value == m.code(f.h.asked[|f.h.asked| - 1])
    ensures FetchOk(m, F.System(F.Next(f.s, i), F.Observe(f.h, f.s, i)))
  {
    F.CacheStep(f.s, f.h, i);
    F.TracksStep(f.s, f.h, i);
    F.PrivStep(f.s, f.h, i);
    F.ProvenanceStep(f.s, f.h, i);
  }

  /** How the position moves. */
  lemma PositionMoves(f: F.System, i: F.In)
    ensures var h' := F.Observe(f.h, f.s, i);
            if i.redirect.Some? then
              Position(h') == F.Target(F.Align(i.redirect.value.pc), i.redirect.value.priv) && h'.target == i.redirect
            else h'.target == f.h.target && (f.h.target.Some? ==>
              if i.accept && F.Shown(f.s, i).Some? then
                Position(h') == F.Target((Position(f.h).pc + 4) % W.W32, Position(f.h).priv)
              else Position(h') == Position(f.h))
  {
    hide F.PcAt;
    if i.redirect.Some? {
      F.PcAtStep(i.redirect.value.pc, 0);
    } else if f.h.target.Some? {
      F.PcAtStep(f.h.target.value.pc, |f.h.stream|);
    }
  }

  // ---------------------------------------------------------------- one clock

  lemma BranchesStep(m: Machine, s: State, i: In)
    requires Control(s) && Legal(s, i) && Branches(m.c.u, s)
    ensures Branches(m.c.u, Next(m.c, s, i))
  {
  }

  /** On a stall nothing moves, and fetch is neither taken from nor redirected unless a trap is
      about to drop what it shows. */
  lemma StalledStep(m: Machine, r: Core, i: Clock)
    requires FetchOk(m, r.f) && PipeOk(m, r.p.s, r.p.h) && Program(m, r) && Wired(m, r, i) && Stall(r.p.s, i.pipe)
    ensures Program(m, NextCore(m, r, i))
  {
    hide Where, OnTrack, Refetch, Fetched, Traps, AwaitsVector, Position, F.Observe, F.Shown, F.Next, OrderOk,
      Operands, Branches;
    PositionMoves(r.f, i.fetch);
  }

  /** The redirect by the CSR unit: nothing is in the stages, and fetch starts anew. */
  lemma VectorStep(m: Machine, r: Core, i: Clock)
    requires FetchOk(m, r.f) && PipeOk(m, r.p.s, r.p.h) && Program(m, r) && Wired(m, r, i) && r.p.s.branchCsrQ
    ensures Program(m, NextCore(m, r, i))
  {
    hide Where, OnTrack, Refetch, Fetched, Traps, AwaitsVector, Position, F.Observe, F.Shown, F.Next, Operands,
      Branches;
    var (h, t) := (r.p.h, r.t);
    ShownPcAligned(m, r, i);
    assert h.outcomes + Retire(r.p.s.wb, h.extW, h.doomed) == h.outcomes;
    PositionMoves(r.f, i.fetch);
    OnTrackKept(m, h.outcomes, t.vectors, i.vector);
    AwaitedVector(m, h.outcomes, t.vectors + [i.vector]);
    F.PcAtStep(i.vector.pc, 0);
    Aligns(i.vector.pc);
  }

  /** What a retiring trap adds to the outcomes. */
  lemma TrapRetires(m: Machine, os: seq<Outcome>, w: WB, ext: Word, q: seq<Instr>, vs: seq<Pc>)
    requires OnTrack(m, os, vs) && |q| <= 1 && w.live && w.exc != NO_EXC
    requires w.instr == Fetched(m, Where(m, os, vs)) && |vs| == 1 + Traps(os)
    ensures var os' := os + Retire(w, ext, q);
            OnTrack(m, os', vs) && AwaitsVector(os') && Traps(os') == Traps(os) + 1 && Where(m, os', vs).pc % 4 == 0
  {
    hide Where, OnTrack, Fetched, Traps, AwaitsVector;
    var o := Trap(w.instr, w.exc);
    var mid := os + [o];
    OnTrackExtends(m, os, o, vs);
    Retires(m, os, o, vs);
    if q != [] {
      OnTrackExtends(m, mid, Squashed(q[0]), vs);
      Retires(m, mid, Squashed(q[0]), vs);
      assert os + Retire(w, ext, q) == mid + [Squashed(q[0])];
    } else {
      assert os + Retire(w, ext, q) == mid;
    }
    AwaitedVector(m, os + Retire(w, ext, q), vs);
  }

  lemma TrapStep(m: Machine, r: Core, i: Clock)
    requires FetchOk(m, r.f) && PipeOk(m, r.p.s, r.p.h) && Program(m, r) && Wired(m, r, i) && r.p.s.squashQ
    ensures Program(m, NextCore(m, r, i))
  {
    hide Where, OnTrack, Refetch, Fetched, Traps, AwaitsVector, Position, F.Observe, F.Shown, F.Next, Operands,
      Branches;
    var (s, h, t) := (r.p.s, r.p.h, r.t);
    TrapRetires(m, h.outcomes, s.wb, h.extW, h.doomed, t.vectors);
    ShownPcAligned(m, r, i);
  }

  /** What a committing instruction adds. */
  lemma CommitRetires(m: Machine, s: State, h: Hist, t: Trail)
    requires Sound(m) && OnTrack(m, h.outcomes, t.vectors) && Operands(m.c.u, s, h) && Branches(m.c.u, s)
    requires s.wb.exc == NO_EXC && h.doomed == [] && |t.vectors| == 1 + Traps(h.outcomes)
    requires s.wb.live ==> t.wb == Where(m, h.outcomes, t.vectors) && s.wb.instr == Fetched(m, t.wb)
    requires Aligned(m, h, t)
    ensures var os' := h.outcomes + Retire(s.wb, h.extW, h.doomed);
            && OnTrack(m, os', t.vectors) && Traps(os') == Traps(h.outcomes)
            && Where(m, os', t.vectors) == AfterWBAt(m, s, h, t) && Where(m, os', t.vectors).pc % 4 == 0
  {
    var os := h.outcomes;
    if s.wb.live {
      var o := Commit(s.wb.instr, h.extW);
      assert os + Retire(s.wb, h.extW, h.doomed) == os + [o];
      OnTrackExtends(m, os, o, t.vectors);
      Retires(m, os, o, t.vectors);
      FollowingAligned(m, s.wb.instr, t.wb, s.wb.opA, s.wb.opB);
    } else {
      assert os + Retire(s.wb, h.extW, h.doomed) == os;
    }
  }

  lemma ShownPcAligned(m: Machine, r: Core, i: Clock)
    requires FetchOk(m, r.f) && Wired(m, r, i) && Aligned(m, r.p.h, r.t)
    ensures var t' := NextTrail(m, r, i); t'.e1.pc % 4 == 0 && t'.e2.pc % 4 == 0 && t'.wb.pc % 4 == 0
  {
    hide FetchOk, F.Shown, Where, Issue, OpcodeValid, Redirect;
    if F.Shown(r.f.s, i.fetch).Some? {
      ShownIsFetched(m, r.f, i.fetch);
    }
  }

  /** The instructions in E1, E2 and WB move on, and the older ones retire into the sequential machine. */
  lemma StagesMove(m: Machine, r: Core, i: Clock)
    requires Sound(m) && FetchOk(m, r.f) && PipeOk(m, r.p.s, r.p.h) && Program(m, r) && Wired(m, r, i)
    requires !Stall(r.p.s, i.pipe) && !Redirecting(r.p.s)
    ensures var r' := NextCore(m, r, i);
            && Counted(r'.p.s, r'.p.h, r'.t) && Aligned(m, r'.p.h, r'.t) && OnTrack(m, r'.p.h.outcomes, r'.t.vectors)
            && r'.t.vectors == r.t.vectors && Where(m, r'.p.h.outcomes, r'.t.vectors) == AfterWBAt(m, r.p.s, r.p.h, r.t)
  {
    hide Where, OnTrack, Refetch, Fetched, Traps, AwaitsVector, Position, F.Observe, F.Shown, F.Next, Operands,
      Branches, InStep, AfterWBAt;
    CommitRetires(m, r.p.s, r.p.h, r.t);
    ShownPcAligned(m, r, i);
  }

  /** Retiring and moving on leaves the places after each stage where they were, one stage later. */
  lemma PlacesMove(m: Machine, r: Core, i: Clock)
    requires Control(r.p.s) && !Stall(r.p.s, i.pipe) && !Squash(r.p.s, i.pipe)
    requires var r' := NextCore(m, r, i); Where(m, r'.p.h.outcomes, r'.t.vectors) == AfterWBAt(m, r.p.s, r.p.h, r.t)
    ensures var (r', s, h, t) := (NextCore(m, r, i), r.p.s, r.p.h, r.t);
            && AfterWBAt(m, r'.p.s, r'.p.h, r'.t) == AfterE2At(m, s, h, t)
            && AfterE2At(m, r'.p.s, r'.p.h, r'.t) == AfterE1At(m, s, h, t)
  {
    hide Where, Refetch, F.Observe, F.Next, F.Shown, Issue, NextSlot, NextResp, NextE1, ExcE2;
  }

  /** An instruction issues from the place that fetch has reached, and is the one memory holds there. */
  lemma IssuedAtPosition(m: Machine, r: Core, i: Clock)
    requires FetchOk(m, r.f) && Program(m, r) && Wired(m, r, i)
    requires !Redirecting(r.p.s) && r.p.s.e2.exc == NO_EXC && Issue(m.c, r.p.s, i.pipe)
    ensures NextTrail(m, r, i).e1 == Position(r.f.h) && i.pipe.instr == Fetched(m, Position(r.f.h))
    ensures F.Shown(r.f.s, i.fetch).Some? && F.Shown(r.f.s, i.fetch).value.pc == Position(r.f.h).pc
  {
    hide FetchOk, F.Shown, Where, OnTrack, Refetch, Traps, AwaitsVector, AfterE1At, AfterWBAt, AfterE2At;
    ShownIsFetched(m, r.f, i.fetch);
  }

  lemma ChainMoves(m: Machine, r: Core, i: Clock)
    requires Sound(m) && FetchOk(m, r.f) && PipeOk(m, r.p.s, r.p.h) && Program(m, r) && Wired(m, r, i)
    requires !Stall(r.p.s, i.pipe) && !Redirecting(r.p.s)
    ensures var r' := NextCore(m, r, i); Chained(m, r'.p.s, r'.p.h, r'.t)
  {
    hide Where, OnTrack, Refetch, Fetched, Traps, AwaitsVector, Position, F.Observe, F.Shown, F.Next, Operands,
      Branches, AfterWBAt, AfterE2At, AfterE1At, Issue, FetchOk, OrderOk;
    StagesMove(m, r, i);
    if !Squash(r.p.s, i.pipe) {
      PlacesMove(m, r, i);
      if Issue(m.c, r.p.s, i.pipe) {
        IssuedAtPosition(m, r, i);
      }
    }
  }

  lemma PositionAligned(h: F.Hist)
    requires h.target.Some?
    ensures var at := Position(h); at.priv == h.target.value.priv && F.Align((at.pc + 4) % W.W32) == (at.pc + 4) % W.W32
  {
    hide F.PcAt;
    F.PcAtStep(h.target.value.pc, |h.stream|);
    F.PcAtStep(h.target.value.pc, |h.stream| + 1);
  }

  /** Fetch goes on behind an instruction that issues, at its target if it jumps. */
  lemma IssueMovesFetch(m: Machine, r: Core, i: Clock)
    requires FetchOk(m, r.f) && Program(m, r) && Wired(m, r, i)
    requires !Redirecting(r.p.s) && r.p.s.e2.exc == NO_EXC && Issue(m.c, r.p.s, i.pipe)
    ensures var (h', at, n) := (F.Observe(r.f.h, r.f.s, i.fetch), Position(r.f.h), i.pipe.instr);
            && h'.target.Some? && h'.target.value.priv == r.t.priv
            && Position(h') == Refetch(m, n, at, Operand(m.c, r.p.s, i.pipe, n.ra), Operand(m.c, r.p.s, i.pipe, n.rb))
  {
    hide Where, OnTrack, Fetched, Traps, AwaitsVector, F.Observe, F.Shown, AfterWBAt, AfterE2At, AfterE1At, Issue,
      FetchOk, Operand, F.PcAt, F.Align, Position, Chained, Counted, Aligned;
    PositionMoves(r.f, i.fetch);
    IssuedAtPosition(m, r, i);
    PositionAligned(r.f.h);
  }

  /** Without an issue fetch stays where it is. */
  lemma NoIssueKeepsFetch(m: Machine, r: Core, i: Clock)
    requires Program(m, r) && Wired(m, r, i)
    requires !Redirecting(r.p.s) && !Squash(r.p.s, i.pipe) && r.p.s.e2.exc == NO_EXC && !Issue(m.c, r.p.s, i.pipe)
    ensures var h' := F.Observe(r.f.h, r.f.s, i.fetch);
            h'.target.Some? && h'.target.value.priv == r.t.priv && Position(h') == Position(r.f.h)
  {
    hide Where, OnTrack, Fetched, Traps, AwaitsVector, Position, F.Observe, F.Shown, AfterWBAt, AfterE2At,
      AfterE1At, Issue, Operand, Squash;
    PositionMoves(r.f, i.fetch);
  }

  lemma PositionKeepsStep(m: Machine, r: Core, i: Clock)
    requires Sound(m) && FetchOk(m, r.f) && PipeOk(m, r.p.s, r.p.h) && Program(m, r) && Wired(m, r, i)
    requires !Stall(r.p.s, i.pipe) && !Redirecting(r.p.s)
    ensures InStep(m, NextCore(m, r, i))
  {
    hide Where, OnTrack, Fetched, Traps, AwaitsVector, Position, F.Observe, F.Shown, F.Next, Operands, Branches,
      AfterWBAt, AfterE2At, Issue, FetchOk, OrderOk, Operand, Wired, Refetch, Chained, Counted, Aligned;
    if !Squash(r.p.s, i.pipe) {
      StagesMove(m, r, i);
      PlacesMove(m, r, i);
      if Issue(m.c, r.p.s, i.pipe) {
        IssuedAtPosition(m, r, i);
        IssueMovesFetch(m, r, i);
      } else {
        NoIssueKeepsFetch(m, r, i);
      }
    }
  }

  /** The clock after reset, in which the reset vector is latched. */
  lemma ResetStep(m: Machine, r: Core, i: Clock)
    requires FetchOk(m, r.f) && PipeOk(m, r.p.s, r.p.h) && Program(m, r) && Wired(m, r, i)
    requires r.p.s.resetQ && !r.p.s.squashQ
    ensures Program(m, NextCore(m, r, i))
  {
    hide Where, OnTrack, Refetch, Fetched, Traps, AwaitsVector, Position, F.Observe, F.Shown, F.Next, Operands,
      Branches;
    var h := r.p.h;
    ShownPcAligned(m, r, i);
    assert h.outcomes + Retire(r.p.s.wb, h.extW, h.doomed) == h.outcomes;
  }

  lemma ProgramStep(m: Machine, r: Core, i: Clock)
    requires Sound(m) && FetchOk(m, r.f) && PipeOk(m, r.p.s, r.p.h) && Program(m, r) && Wired(m, r, i)
    ensures Program(m, NextCore(m, r, i))
  {
    hide FetchOk, PipeOk, Chained, InStep, Counted, Aligned, OnTrack, Wired, NextCore, Stall, Sound;
    if Stall(r.p.s, i.pipe) {
      StalledStep(m, r, i);
    } else if r.p.s.branchCsrQ {
      VectorStep(m, r, i);
    } else if r.p.s.squashQ {
      TrapStep(m, r, i);
    } else if r.p.s.resetQ {
      ResetStep(m, r, i);
    } else {
      StagesMove(m, r, i);
      ChainMoves(m, r, i);
      PositionKeepsStep(m, r, i);
    }
  }

  // ---------------------------------------------------------------- every run

  /** The composition runs its two parts as their own models do. */
  lemma {:induction false} Components(m: Machine, ins: seq<Clock>)
    requires WiredRun(m, ins)
    ensures LegalRun(m.c, Pipes(ins)) && CoreAfter(m, ins).p == After(m.c, Pipes(ins))
    ensures F.After(m.bootAddr, Fetches(ins)) == Some(CoreAfter(m, ins).f)
  {
    if ins != [] {
      var n := |ins| - 1;
      Components(m, ins[..n]);
      assert Pipes(ins)[..n] == Pipes(ins[..n]) && Fetches(ins)[..n] == Fetches(ins[..n]);
    }
  }

  lemma ResetOnlyFirst(m: Machine, ins: seq<Clock>)
    ensures CoreAfter(m, ins).p.s.resetQ <==> ins == []
  {
  }

  /** What memory, divider and cache may do next by their own rules. */
  predicate Outside(m: Machine, r: Core, x: In, answer: Option<F.Response>) {
    && x.instr.WellFormed() && (x.memAck ==> r.p.s.pending) && (x.divDone ==> r.p.s.div.DivBusy?)
    && (answer.Some? ==> r.f.s.fetching && r.f.h.asked != [] && answer.value == m.code(r.f.h.asked[|r.f.h.asked| - 1]))
  }

  lemma Connected(m: Machine, r: Core, x: In, icAccept: bool, answer: Option<F.Response>, vector: Pc)
    requires Sound(m) && Outside(m, r, x, answer)
    requires r.p.s.resetQ ==> !r.f.s.fetching && r.f.s.skid.None?
    ensures Wired(m, r, Connect(m, r, x, icAccept, answer, vector))
  {
    hide Issue, OpcodeValid, Operand;
    var i := Connect(m, r, x, icAccept, answer, vector);
    assert F.Shown(r.f.s, i.fetch) == F.Shown(r.f.s, F.In(false, icAccept, answer, None));
  }

  /** The wiring restricts nothing outside the core: whatever happens there next, the run goes on. */
  lemma EveryRunGoesOn(m: Machine, ins: seq<Clock>, x: In, icAccept: bool, answer: Option<F.Response>, vector: Pc)
    requires Sound(m) && WiredRun(m, ins) && Outside(m, CoreAfter(m, ins), x, answer)
    ensures WiredRun(m, ins + [Connect(m, CoreAfter(m, ins), x, icAccept, answer, vector)])
  {
    hide Wired, Connect, Outside, NextCore;
    ResetOnlyFirst(m, ins);
    Connected(m, CoreAfter(m, ins), x, icAccept, answer, vector);
    assert (ins + [Connect(m, CoreAfter(m, ins), x, icAccept, answer, vector)])[..|ins|] == ins;
  }

  lemma OperandsHold(m: Machine, ins: seq<In>)
    requires LegalRun(m.c, ins) && !OrphanAccepted(m.c, ins)
    ensures var (s, h) := (After(m.c, ins).s, After(m.c, ins).h);
            Control(s) && OrderOk(s, h) && Operands(m.c.u, s, h)
  {
    ControlReachable(m.c, ins);
    ReachableUnlessAccepted(m.c, ins);
  }

  lemma StartsWell(m: Machine)
    ensures var r := Start(m); FetchOk(m, r.f) && PipeOk(m, r.p.s, r.p.h) && Program(m, r)
  {
  }

  lemma CoreStep(m: Machine, r: Core, i: Clock)
    requires Sound(m) && FetchOk(m, r.f) && PipeOk(m, r.p.s, r.p.h) && Program(m, r) && Wired(m, r, i)
    ensures var r' := NextCore(m, r, i); FetchOk(m, r'.f) && Branches(m.c.u, r'.p.s) && Program(m, r')
  {
    hide Program, FetchOk, Control, OrderOk, Operands, Branches, NextTrail, Next, Sound, F.Next, F.Observe, F.Shown,
      Redirect, Issue;
    FetchStep(m, r.f, i.fetch);
    ProgramStep(m, r, i);
    BranchesStep(m, r.p.s, i.pipe);
  }

  lemma PipesOfFront(m: Machine, ins: seq<Clock>)
    requires ins != [] && WiredRun(m, ins) && !OrphanAccepted(m.c, Pipes(ins))
    ensures !OrphanAccepted(m.c, Pipes(ins[..|ins| - 1]))
  {
    assert Pipes(ins)[..|ins| - 1] == Pipes(ins[..|ins| - 1]);
  }

  lemma PipeReachable(m: Machine, ins: seq<Clock>)
    requires WiredRun(m, ins) && !OrphanAccepted(m.c, Pipes(ins)) && Branches(m.c.u, CoreAfter(m, ins).p.s)
    ensures var p := CoreAfter(m, ins).p; PipeOk(m, p.s, p.h)
  {
    hide CoreAfter, OrphanAccepted, LegalRun, Control, OrderOk, Operands, Branches;
    Components(m, ins);
    OperandsHold(m, Pipes(ins));
  }

  lemma {:induction false} CoreReachable(m: Machine, ins: seq<Clock>)
    requires Sound(m) && WiredRun(m, ins) && !OrphanAccepted(m.c, Pipes(ins))
    ensures var r := CoreAfter(m, ins); FetchOk(m, r.f) && PipeOk(m, r.p.s, r.p.h) && Program(m, r)
  {
    if ins == [] {
      StartsWell(m);
    } else {
      hide Program, FetchOk, PipeOk, NextCore, Sound, Wired, OrphanAccepted, Pipes, LegalRun;
      var front, i := ins[..|ins| - 1], ins[|ins| - 1];
      PipesOfFront(m, ins);
      CoreReachable(m, front);
      CoreStep(m, CoreAfter(m, front), i);
      PipeReachable(m, ins);
    }
  }

  /** The core executes the program: after any run with fetch answered from instruction memory,
      with any cache delays, stalls, mispredicted fetches and traps, each instruction that committed
      or trapped is the one memory holds where one-at-a-time execution of the outcomes before it
      stands; the instruction in WB is there too, under the pc its trap would report. */
  lemma {:induction false} ExecutesTheProgram(m: Machine, ins: seq<Clock>)
    requires Sound(m) && WiredRun(m, ins) && !OrphanAccepted(m.c, Pipes(ins))
    ensures var (s, h, t) := (CoreAfter(m, ins).p.s, CoreAfter(m, ins).p.h, CoreAfter(m, ins).t);
            && (forall k :: 0 <= k < |h.outcomes| && !h.outcomes[k].Squashed? ==>
                  && Traps(h.outcomes[..k]) < |t.vectors|
                  && h.outcomes[k].instr == Fetched(m, Where(m, h.outcomes[..k], t.vectors)))
            && (s.wb.live ==> t.wb == Where(m, h.outcomes, t.vectors) && s.wb.instr == Fetched(m, t.wb))
            && s.regs == ExecAll(m.c.u, ZERO_REGS, h.outcomes)
  {
    CoreReachable(m, ins);
    Components(m, ins);
    RefinesSequentialExecution(m.c, Pipes(ins));
  }
}
