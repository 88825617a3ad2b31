/** Fetch and back end wired together: what fetch shows is decoded and offered to issue, a taken
    branch redirects fetch in the clock in which it issues, and a trap two clocks after it leaves E2. */
module CoreModel {
  import opened Options
  import opened PipeModel
  import W = Words
  import F = Fetch

  type Pc = F.Target

  /** What the core is put together with: the decoder, the instruction memory as each privilege sees
      it, and the target of a branch that is taken. */
  datatype Machine = Machine(c: Config, bootAddr: W.Word,
                             decode: F.Response -> Instr, code: F.Read -> F.Response,
                             jump: (Instr, W.Word, Word, Word) -> Option<W.Word>)

  /** Decoded instructions are well formed, and the misaligned-target check looks at the target. */
  ghost predicate Sound(m: Machine) {
    && (forall r :: m.decode(r).WellFormed())
    && (forall n, pc, a, b :: pc % 4 == 0 ==>
          (m.c.u.badTarget(n, a, b) <==> m.jump(n, pc, a, b).Some? && m.jump(n, pc, a, b).value % 4 != 0))
  }

  /** Where the instructions in E1, E2 and WB come from, the privilege branches keep, and the targets
      of all redirects by the CSR unit so far, the reset vector first. */
  datatype Trail = Trail(e1: Pc, e2: Pc, wb: Pc, priv: nat, vectors: seq<Pc>)

  datatype Core = Core(p: Run, f: F.System, t: Trail)

  /** `vector` is what the CSR unit redirects to, when it does. */
  datatype Clock = Clock(pipe: In, fetch: F.In, vector: Pc)

  const NOWHERE: Pc := F.Target(0, 0)

  function Start(m: Machine): Core {
    Core(Run(RESET, NO_HIST), F.System(F.Reset(m.bootAddr), F.Hist([], [], None, 0, 0, [])),
         Trail(NOWHERE, NOWHERE, NOWHERE, F.PRIV_MACHINE, []))
  }

  // ---------------------------------------------------------------- wires

  /** The instruction after one that went on with these operands. */
  function Following(m: Machine, n: Instr, at: Pc, a: Word, b: Word): Pc {
    var target := m.jump(n, at.pc, a, b);
    if n.cls.Branch? && target.Some? then F.Target(target.value, at.priv)
    else F.Target((at.pc + 4) % W.W32, at.priv)
  }

  predicate Jumps(m: Machine, r: Core, i: Clock, pc: W.Word) {
    && Issue(m.c, r.p.s, i.pipe) && i.pipe.instr.cls.Branch?
    && m.jump(i.pipe.instr, pc, Operand(m.c, r.p.s, i.pipe, i.pipe.instr.ra),
              Operand(m.c, r.p.s, i.pipe, i.pipe.instr.rb)).Some?
  }

  function Redirect(m: Machine, r: Core, i: Clock): Option<Pc> {
    var shown := F.Shown(r.f.s, i.fetch);
    if r.p.s.branchCsrQ then Some(i.vector)
    else if shown.Some? && Jumps(m, r, i, shown.value.pc) then
      var a := Operand(m.c, r.p.s, i.pipe, i.pipe.instr.ra);
      var b := Operand(m.c, r.p.s, i.pipe, i.pipe.instr.rb);
      Some(F.Target(m.jump(i.pipe.instr, shown.value.pc, a, b).value, r.t.priv))
    else None
  }

  /** The inputs of both parts agree, and the cache answers with what instruction memory holds. */
  predicate Wired(m: Machine, r: Core, i: Clock) {
    var shown := F.Shown(r.f.s, i.fetch);
    && Legal(r.p.s, i.pipe) && F.Legal(r.f.s, i.fetch)
    && i.pipe.fetchValid == shown.Some?
    && (shown.Some? ==> i.pipe.instr == m.decode(shown.value.response))
    && i.fetch.accept == (OpcodeValid(r.p.s, i.pipe) ==> Issue(m.c, r.p.s, i.pipe))
    && i.fetch.redirect == Redirect(m, r, i)
    && (i.fetch.answer.Some? && r.f.h.asked != [] ==>
          i.fetch.answer.value == m.code(r.f.h.asked[|r.f.h.asked| - 1]))
  }

  /** The clock that the wires make of what comes from outside; only the decoded instruction and
      the handshakes between the two parts are computed. */
  function Connect(m: Machine, r: Core, x: In, icAccept: bool, answer: Option<F.Response>, vector: Pc): Clock {
    var shown := F.Shown(r.f.s, F.In(false, icAccept, answer, None));
    var pipe := if shown.Some? then x.(fetchValid := true, instr := m.decode(shown.value.response))
                else x.(fetchValid := false);
    var accept := OpcodeValid(r.p.s, pipe) ==> Issue(m.c, r.p.s, pipe);
    var bare := Clock(pipe, F.In(accept, icAccept, answer, None), vector);
    bare.(fetch := bare.fetch.(redirect := Redirect(m, r, bare)))
  }

  // ---------------------------------------------------------------- clock edge

  function NextTrail(m: Machine, r: Core, i: Clock): Trail {
    var s, shown := r.p.s, F.Shown(r.f.s, i.fetch);
    var (at1, at2, atW) :=
      if Stall(s, i.pipe) then (r.t.e1, r.t.e2, r.t.wb)
      else (if shown.Some? then F.Target(shown.value.pc, r.t.priv) else NOWHERE, r.t.e1, r.t.e2);
    if s.branchCsrQ then Trail(at1, at2, atW, i.vector.priv, r.t.vectors + [i.vector])
    else Trail(at1, at2, atW, r.t.priv, r.t.vectors)
  }

  function NextCore(m: Machine, r: Core, i: Clock): Core {
    Core(StepRun(m.c, r.p, i.pipe),
         F.System(F.Next(r.f.s, i.fetch), F.Observe(r.f.h, r.f.s, i.fetch)), NextTrail(m, r, i))
  }

  function CoreAfter(m: Machine, ins: seq<Clock>): Core {
    if ins == [] then Start(m) else NextCore(m, CoreAfter(m, ins[..|ins| - 1]), ins[|ins| - 1])
  }

  predicate WiredRun(m: Machine, ins: seq<Clock>) {
    ins == [] || (WiredRun(m, ins[..|ins| - 1]) && Wired(m, CoreAfter(m, ins[..|ins| - 1]), ins[|ins| - 1]))
  }

  function Pipes(ins: seq<Clock>): (ps: seq<In>)
    ensures |ps| == |ins|
  {
    if ins == [] then [] else Pipes(ins[..|ins| - 1]) + [ins[|ins| - 1].pipe]
  }

  function Fetches(ins: seq<Clock>): (fs: seq<F.In>)
    ensures |fs| == |ins|
  {
    if ins == [] then [] else Fetches(ins[..|ins| - 1]) + [ins[|ins| - 1].fetch]
  }

  // ---------------------------------------------------------------- sequential reference

  function Traps(os: seq<Outcome>): nat {
    if os == [] then 0 else Traps(os[..|os| - 1]) + (if os[|os| - 1].Trap? then 1 else 0)
  }

  function Vector(vs: seq<Pc>, n: nat): Pc {
    if n < |vs| then F.Target(F.Align(vs[n].pc), vs[n].priv) else NOWHERE
  }

  /** Where a machine that executes one instruction at a time stands after these outcomes: at the
      reset vector, after the instruction executed last or at the target of its branch, or at the
      vector of the last trap. Squashed instructions were never reached. */
  function Where(m: Machine, os: seq<Outcome>, vs: seq<Pc>): Pc {
    if os == [] then Vector(vs, 0)
    else
      var front, last := os[..|os| - 1], os[|os| - 1];
      match last
      case Commit(n, _) =>
        var f := ExecAll(m.c.u, ZERO_REGS, front);
        Following(m, n, Where(m, front, vs), f[n.ra], f[n.rb])
      case Trap(_, _) => Vector(vs, 1 + Traps(front))
      case Squashed(_) => Where(m, front, vs)
  }

  function Fetched(m: Machine, at: Pc): Instr { m.decode(m.code(F.Read(at.pc, at.priv))) }

  /** Every instruction that commits or traps is the one in memory where that machine stands, and the
      redirect it waited for has been made. */
  predicate OnTrack(m: Machine, os: seq<Outcome>, vs: seq<Pc>) {
    forall k :: 0 <= k < |os| && !os[k].Squashed? ==>
      Traps(os[..k]) < |vs| && os[k].instr == Fetched(m, Where(m, os[..k], vs))
  }
}
