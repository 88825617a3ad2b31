/** The fetch unit: program counter, buffered branch, response drop and output buffer, in front of
    an instruction cache that answers each accepted read once and in order. */
module Fetch {
  import opened Options
  import opened Words

  datatype Target = Target(pc: Word, priv: nat)
  datatype Response = Response(instr: Word, error: bool, pageFault: bool)
  datatype Output = Output(pc: Word, response: Response)

  datatype Pc = Pc(f: Word, privF: nat, branchD: bool, d: Word)
  datatype State = State(active: bool, branch: bool, target: Target, pc: Pc, fetching: bool, skid: Option<Output>)

  const PRIV_MACHINE: nat := 3

  function Reset(bootAddr: Word): State {
    State(false, false, Target(0, PRIV_MACHINE), Pc(bootAddr, PRIV_MACHINE, false, 0), false, None)
  }

  datatype In = In(accept: bool, icAccept: bool, answer: Option<Response>, redirect: Option<Target>)

  function Align(pc: Word): Word { pc - pc % 4 }

  // ---------------------------------------------------------------- wires

  predicate Busy(s: State, i: In) { s.fetching && i.answer.None? }
  predicate Stall(s: State, i: In) { !i.accept || Busy(s, i) || !i.icAccept }
  predicate Rd(s: State, i: In) { s.active && i.accept && !Busy(s, i) }
  predicate ReadAccepted(s: State, i: In) { Rd(s, i) && i.icAccept }
  predicate Drop(s: State) { s.branch || s.pc.branchD }

  function Shown(s: State, i: In): Option<Output> {
    if Drop(s) then None
    else if s.skid.Some? then s.skid
    else if i.answer.Some? then Some(Output(Align(s.pc.d), i.answer.value))
    else None
  }

  // ---------------------------------------------------------------- next state

  function NextPc(s: State, i: In): Pc {
    var d := if ReadAccepted(s, i) then s.pc.f else s.pc.d;
    if Stall(s, i) then s.pc.(d := d)
    else if s.branch then Pc(s.target.pc, s.target.priv, true, d)
    else Pc((Align(s.pc.f) + 4) % W32, s.pc.privF, false, d)
  }

  function Next(s: State, i: In): State {
    State(
      s.active || (s.branch && !Stall(s, i)),
      i.redirect.Some? || (s.branch && !ReadAccepted(s, i)),
      if i.redirect.Some? then i.redirect.value else if ReadAccepted(s, i) then s.target.(pc := 0) else s.target,
      NextPc(s, i),
      ReadAccepted(s, i) || (s.fetching && i.answer.None?),
      if !i.accept then Shown(s, i) else None)
  }

  /** The cache answers only a read it has accepted before. */
  predicate Legal(s: State, i: In) { i.answer.Some? ==> s.fetching }

  // ---------------------------------------------------------------- history

  datatype Read = Read(pc: Word, priv: nat)

  /** Reads accepted by the cache and its answers; the latest redirect, how many reads were accepted
      before it and before it took effect; the outputs taken by the decoder since then. An output
      taken in the clock of a redirect is squashed, so it does not count. */
  datatype Hist = Hist(asked: seq<Read>, answers: seq<Response>, target: Option<Target>, mark: nat, first: nat,
                       stream: seq<Output>)

  function Observe(h: Hist, s: State, i: In): Hist {
    var asked := if ReadAccepted(s, i) then h.asked + [Read(Align(s.pc.f), s.pc.privF)] else h.asked;
    var answers := if i.answer.Some? then h.answers + [i.answer.value] else h.answers;
    if i.redirect.Some? then Hist(asked, answers, i.redirect, |asked|, |asked|, [])
    else Hist(asked, answers, h.target, h.mark, if s.branch then |asked| else h.first,
              if i.accept && Shown(s, i).Some? then h.stream + [Shown(s, i).value] else h.stream)
  }

  datatype System = System(s: State, h: Hist)

  function After(bootAddr: Word, ins: seq<In>): Option<System> {
    if ins == [] then Some(System(Reset(bootAddr), Hist([], [], None, 0, 0, [])))
    else
      match After(bootAddr, ins[..|ins| - 1])
      case None => None
      case Some(System(s, h)) =>
        var i := ins[|ins| - 1];
        if Legal(s, i) then Some(System(Next(s, i), Observe(h, s, i))) else None
  }

  // ---------------------------------------------------------------- invariants

  /** The pc of output number `n` after a redirect. */
  function PcAt(target: Word, n: nat): Word { (Align(target) + 4 * n) % W32 }

  lemma PcAtStep(target: Word, n: nat)
    ensures Align(PcAt(target, n)) == PcAt(target, n) && PcAt(target, 0) == Align(target)
    ensures (PcAt(target, n) + 4) % W32 == PcAt(target, n + 1)
  {
    var x := Align(target) + 4 * n;
    assert x % 4 == 0;
    assert x == W32 * (x / W32) + x % W32;
    assert (x % W32) % 4 == 0;
    ModShift(x % W32 + 4, x / W32, W32);
    assert x % W32 + 4 + (x / W32) * W32 == x + 4;
  }

  /** Answers follow reads, and an open read is the one whose pc is kept for the answer. */
  predicate Cache(s: State, h: Hist) {
    && |h.asked| == |h.answers| + (if s.fetching then 1 else 0)
    && (s.fetching ==> h.asked[|h.asked| - 1].pc == Align(s.pc.d))
    && (s.fetching ==> s.active)
    && (s.skid.Some? ==> !s.fetching)
  }

  /** Where the unit stands in the stream that the latest redirect asked for. */
  ghost predicate Tracks(s: State, h: Hist) {
    && (s.active ==> h.target.Some?)
    && (h.target.None? ==> !s.branch && !s.pc.branchD && s.skid.None? && h.stream == [] && !s.fetching)
    && (h.target.Some? ==> Following(s, h, h.target.value))
  }

  ghost predicate Following(s: State, h: Hist, t: Target) {
    var n := |h.stream|;
    if s.branch then s.target == t && n == 0
    else
      && s.active && s.pc.privF == t.priv
      && (if s.pc.branchD then n == 0 && s.pc.f == t.pc && s.skid.None?
          else if s.fetching then Align(s.pc.d) == PcAt(t.pc, n) && s.pc.f == PcAt(t.pc, n + 1)
          else if s.skid.Some? then s.skid.value.pc == PcAt(t.pc, n) && s.pc.f == PcAt(t.pc, n + 1)
          else s.pc.f == PcAt(t.pc, n))
  }

  /** The outputs since the redirect answer consecutive reads made after it, and the only further
      read is the one in flight or in the output buffer. */
  ghost predicate Provenance(s: State, h: Hist) {
    && h.mark <= h.first <= |h.asked|
    && (Drop(s) ==> h.stream == [] && h.first == |h.asked|)
    && |h.asked| == h.first + |h.stream| + (if !Drop(s) && (s.fetching || s.skid.Some?) then 1 else 0)
    && (!Drop(s) && s.skid.Some? ==>
          |h.answers| == |h.asked| > 0 && s.skid.value == Output(h.asked[|h.asked| - 1].pc, h.answers[|h.answers| - 1]))
    && |h.answers| <= |h.asked|
    && (forall j :: 0 <= j < |h.stream| ==> h.first + j < |h.answers| && Answers(h, j, h.stream[j]))
  }

  /** Output `j` of the stream is read `first + j` and its answer, made with the privilege of the
      redirect, at the pc the redirect leads to. */
  ghost predicate Answers(h: Hist, j: nat, out: Output)
    requires h.first + j < |h.answers| <= |h.asked|
  {
    && out == Output(h.asked[h.first + j].pc, h.answers[h.first + j])
    && h.target.Some?
    && h.asked[h.first + j] == Read(PcAt(h.target.value.pc, j), h.target.value.priv)
  }

  ghost predicate PrivKept(s: State, h: Hist) {
    h.target.Some? ==> forall k :: h.first <= k < |h.asked| ==> h.asked[k].priv == h.target.value.priv
  }

  lemma CacheStep(s: State, h: Hist, i: In)
    requires Cache(s, h) && Legal(s, i)
    ensures Cache(Next(s, i), Observe(h, s, i))
  {
  }

  lemma TracksStep(s: State, h: Hist, i: In)
    requires Cache(s, h) && Tracks(s, h) && Legal(s, i)
    ensures Tracks(Next(s, i), Observe(h, s, i))
  {
    hide PcAt;
    if h.target.Some? {
      PcAtStep(h.target.value.pc, |h.stream|);
      PcAtStep(h.target.value.pc, |h.stream| + 1);
    }
  }

  lemma PrivStep(s: State, h: Hist, i: In)
    requires Tracks(s, h) && PrivKept(s, h)
    ensures PrivKept(Next(s, i), Observe(h, s, i))
  {
    hide PcAt;
  }

  lemma ProvenanceStep(s: State, h: Hist, i: In)
    requires Cache(s, h) && Tracks(s, h) && Provenance(s, h) && PrivKept(s, h) && Legal(s, i)
    ensures Provenance(Next(s, i), Observe(h, s, i))
  {
    hide PcAt;
    var n, h2 := Next(s, i), Observe(h, s, i);
    if h.target.Some? {
      PcAtStep(h.target.value.pc, |h.stream|);
    }
    assert h2.asked[..|h.asked|] == h.asked && h2.answers[..|h.answers|] == h.answers;
  }

  // ---------------------------------------------------------------- main results

  lemma {:induction false} Always(bootAddr: Word, ins: seq<In>)
    requires After(bootAddr, ins).Some?
    ensures var System(s, h) := After(bootAddr, ins).value;
            Cache(s, h) && Tracks(s, h) && PrivKept(s, h) && Provenance(s, h)
  {
    if ins != [] {
      hide Cache, Tracks, PrivKept, Provenance, Next, Observe, Legal;
      var n := |ins| - 1;
      Always(bootAddr, ins[..n]);
      var System(s, h) := After(bootAddr, ins[..n]).value;
      CacheStep(s, h, ins[n]);
      TracksStep(s, h, ins[n]);
      PrivStep(s, h, ins[n]);
      ProvenanceStep(s, h, ins[n]);
    }
  }

  /** Under every pattern of stalls, cache delays and redirects: output number `j` after a redirect
      to T has pc aligned(T) + 4 j, carries the cache's answer to the read made at that pc with the
      redirect's privilege, and that read was accepted after the redirect. */
  lemma StreamFollowsRedirect(bootAddr: Word, ins: seq<In>, j: nat)
    requires After(bootAddr, ins).Some?
    requires j < |After(bootAddr, ins).value.h.stream|
    ensures var h := After(bootAddr, ins).value.h;
            && h.target.Some?
            && h.mark <= h.first + j < |h.answers| <= |h.asked|
            && h.asked[h.first + j] == Read(PcAt(h.target.value.pc, j), h.target.value.priv)
            && h.stream[j] == Output(PcAt(h.target.value.pc, j), h.answers[h.first + j])
  {
    Always(bootAddr, ins);
    var h := After(bootAddr, ins).value.h;
    assert Answers(h, j, h.stream[j]);
  }

  /** No read after the redirect took effect is lost: all have been taken by the decoder except
      the one in flight or in the output buffer. */
  lemma {:induction false} NothingFetchedIsLost(bootAddr: Word, ins: seq<In>)
    requires After(bootAddr, ins).Some?
    ensures var System(s, h) := After(bootAddr, ins).value;
            && |h.asked| == h.first + |h.stream| + (if !Drop(s) && (s.fetching || s.skid.Some?) then 1 else 0)
            && !(s.fetching && s.skid.Some?)
  {
    Always(bootAddr, ins);
  }

  // ---------------------------------------------------------------- registers

  class FetchUnit {
    var active: bool
    var branch: bool
    var target: Target
    var pc: Pc
    var fetching: bool
    var skid: Option<Output>

    function View(): (s: State)
      reads this
    {
      State(active, branch, target, pc, fetching, skid)
    }

    constructor (bootAddr: Word)
      ensures View() == Reset(bootAddr)
    {
      active, branch, target := false, false, Target(0, PRIV_MACHINE);
      pc, fetching, skid := Pc(bootAddr, PRIV_MACHINE, false, 0), false, None;
    }

    /** What the decoder sees before the clock edge. */
    method Outputs(i: In) returns (shown: Option<Output>)
      ensures shown == Shown(View(), i)
    {
      shown := None;
      if !branch && !pc.branchD {
        if skid.Some? {
          shown := skid;
        } else if i.answer.Some? {
          shown := Some(Output(Align(pc.d), i.answer.value));
        }
      }
    }

    /** One clock edge. */
    method Step(i: In)
      modifies this
      ensures View() == Next(old(View()), i)
    {
      var shown := Outputs(i);
      var busy := fetching && i.answer.None?;
      var stall := !i.accept || busy || !i.icAccept;
      var read := active && i.accept && !busy && i.icAccept;
      var nextPc := pc;
      if read {
        nextPc := nextPc.(d := pc.f);
      }
      if branch && !stall {
        nextPc := nextPc.(f := target.pc, privF := target.priv, branchD := true);
      } else if !stall {
        nextPc := nextPc.(f := (Align(pc.f) + 4) % W32, branchD := false);
      }
      active := active || (branch && !stall);
      if i.redirect.Some? {
        branch, target := true, i.redirect.value;
      } else if read {
        branch, target := false, target.(pc := 0);
      }
      if read {
        fetching := true;
      } else if i.answer.Some? {
        fetching := false;
      }
      pc, skid := nextPc, if i.accept then None else shown;
    }
  }
}
