/** The back end with memory behind it: memory performs each request it accepts, in that order, and
    what committed loads return is what the committed stores before them left. */
module PipeMemory {
  import opened Options
  import W = Words
  import Ram
  import B = ByteMemory
  import opened PipeModel
  import opened PipeProofs
  import opened PipeTheorems
  import L = LsuModel
  import Lsu = LsuProofs

  /** What the pipeline leaves abstract, as the load/store unit has it: the operation an access stands
      for, a word of memory by its lanes, and a result as a number. */
  datatype Codec = Codec(op: Access -> L.Op, lanes: Word -> Ram.Lanes, num: Word -> W.Word)

  function OpOf(u: Units, v: Codec, n: Instr, a: Word, b: Word): L.Op { v.op(AccessOf(u, n, a, b)) }

  function EntryFor(op: L.Op): L.Entry { L.EntryOf(L.Decode(Some(op))) }

  /** Alignment, direction and extraction are those of the load/store unit. */
  ghost predicate Sound(u: Units, v: Codec) {
    && (forall n, a, b :: u.unaligned(n, a) <==> L.Misaligned(OpOf(u, v, n, a, b)))
    && (forall n, a, b :: OpOf(u, v, n, a, b).load <==> n.cls.Load?)
    && (forall n, a, b, w ::
          v.num(u.extract(n, u.address(n, a), w)) == L.Extract(EntryFor(OpOf(u, v, n, a, b)), v.lanes(w)))
  }

  /** The formats of loads and stores, and how words of the pipeline are numbers and back. */
  datatype Formats = Formats(num: Word -> W.Word, back: W.Word -> Word,
                             width: Instr -> B.Width, signed: Instr -> bool, offset: Instr -> int)

  function Operation(m: Formats, n: Instr, addr: W.Word, value: W.Word): L.Op {
    L.Op(n.cls.Load?, m.width(n), m.signed(n), addr, 0, value)
  }

  function CodecOf(m: Formats): Codec {
    Codec((x: Access) => Operation(m, x.instr, m.num(x.addr), m.num(x.data)), (w: Word) => B.LanesOf(m.num(w)), m.num)
  }

  /** Any execution units, with addresses and loads as the load/store unit computes them. */
  function UnitsOf(m: Formats, u: Units): Units {
    u.(address := (n: Instr, a: Word) => m.back(W.Wrap(m.num(a) + m.offset(n))),
       unaligned := (n: Instr, a: Word) => L.Misaligned(Operation(m, n, W.Wrap(m.num(a) + m.offset(n)), 0)),
       extract := (n: Instr, addr: Word, w: Word) =>
         m.back(L.Extract(EntryFor(Operation(m, n, m.num(addr), 0)), B.LanesOf(m.num(w)))))
  }

  /** So the premise holds for every choice of widths, signs and immediates. */
  lemma {:induction false} FormatsAreSound(m: Formats, u: Units)
    requires forall x :: m.num(m.back(x)) == x
    ensures Sound(UnitsOf(m, u), CodecOf(m))
  {
    hide L.Extract, B.LanesOf, W.Wrap, B.Aligned;
    forall n, a, b
      ensures UnitsOf(m, u).unaligned(n, a) <==> L.Misaligned(OpOf(UnitsOf(m, u), CodecOf(m), n, a, b))
      ensures OpOf(UnitsOf(m, u), CodecOf(m), n, a, b).load <==> n.cls.Load?
    {
      WrapsOnce(W.Wrap(m.num(a) + m.offset(n)));
    }
    forall n, a, b, w
      ensures CodecOf(m).num(UnitsOf(m, u).extract(n, UnitsOf(m, u).address(n, a), w))
              == L.Extract(EntryFor(OpOf(UnitsOf(m, u), CodecOf(m), n, a, b)), CodecOf(m).lanes(w))
    {
      ValueIsNotInEntry(m, n, W.Wrap(m.num(a) + m.offset(n)), m.num(b));
    }
  }

  lemma WrapsOnce(x: W.Word)
    ensures W.Wrap(x + 0) == x
  {
  }

  lemma ValueIsNotInEntry(m: Formats, n: Instr, addr: W.Word, value: W.Word)
    ensures EntryFor(Operation(m, n, addr, value)) == EntryFor(Operation(m, n, addr, 0))
  {
    hide B.StoreLanes, B.StoreStrobes;
  }

  // ---------------------------------------------------------------- memory

  /** A clock of the pipeline, and whether memory will fail the request it accepts in it. */
  datatype Clock = Clock(i: In, fault: bool)

  function Perform(rows: seq<Ram.Lanes>, op: L.Op): (r: seq<Ram.Lanes>)
    requires |rows| >= Ram.ROWS
    ensures |r| == |rows|
  {
    var q := L.Decode(Some(op));
    Ram.Write(rows, q.addr - q.addr % 4, q.data, q.strobes)
  }

  /** A request is performed when it is accepted, unless it will fail; the open one is answered later. */
  function NextEnv(v: Codec, s: State, e: L.Env, k: Clock): (r: L.Env)
    requires |e.rows| >= Ram.ROWS
    ensures |r.rows| == |e.rows|
  {
    if Requesting(s, k.i) && k.i.memAccept then
      var op := v.op(s.slot.acc);
      L.Env(if k.fault then e.rows else Perform(e.rows, op), Some(L.Served(e.rows[Ram.Row(L.Addr(op))], k.fault)))
    else L.Env(e.rows, if k.i.memAck then None else e.open)
  }

  /** An answer is the open request's: its word, or that it failed. */
  predicate Answers(v: Codec, e: L.Env, i: In) {
    i.memAck ==>
      e.open.Some? && i.memError == e.open.value.fault && (!i.memError ==> v.lanes(i.memData) == e.open.value.word)
  }

  datatype System = System(r: Run, e: L.Env)

  function NextSystem(c: Config, v: Codec, x: System, k: Clock): System
    requires |x.e.rows| >= Ram.ROWS
  {
    System(StepRun(c, x.r, k.i), NextEnv(v, x.r.s, x.e, k))
  }

  function AfterClocks(c: Config, v: Codec, rows: seq<Ram.Lanes>, ks: seq<Clock>): (x: System)
    requires |rows| >= Ram.ROWS
    ensures |x.e.rows| == |rows|
  {
    if ks == [] then System(Run(RESET, NO_HIST), L.Env(rows, None))
    else NextSystem(c, v, AfterClocks(c, v, rows, ks[..|ks| - 1]), ks[|ks| - 1])
  }

  predicate MemoryRun(c: Config, v: Codec, rows: seq<Ram.Lanes>, ks: seq<Clock>)
    requires |rows| >= Ram.ROWS
  {
    ks == [] ||
    var (front, k) := (ks[..|ks| - 1], ks[|ks| - 1]);
    var x := AfterClocks(c, v, rows, front);
    MemoryRun(c, v, rows, front) && Legal(x.r.s, k.i) && Answers(v, x.e, k.i)
  }

  function Pipes(ks: seq<Clock>): (ins: seq<In>)
    ensures |ins| == |ks|
  {
    if ks == [] then [] else Pipes(ks[..|ks| - 1]) + [ks[|ks| - 1].i]
  }

  // ---------------------------------------------------------------- sequential reference

  /** The bytes an instruction that completes leaves. */
  function Stored(u: Units, v: Codec, bytes: seq<W.Byte>, n: Instr, a: Word, b: Word): (r: seq<W.Byte>)
    requires L.InMemory(bytes)
    ensures |r| == |bytes|
  {
    if n.IsMem() then L.ExecMem(bytes, OpOf(u, v, n, a, b), false) else bytes
  }

  /** The bytes one-at-a-time execution of these outcomes leaves. */
  function BytesAfter(u: Units, v: Codec, bytes: seq<W.Byte>, os: seq<Outcome>): (r: seq<W.Byte>)
    requires L.InMemory(bytes)
    ensures |r| == |bytes|
  {
    if os == [] then bytes
    else
      var (front, last) := (os[..|os| - 1], os[|os| - 1]);
      var before := BytesAfter(u, v, bytes, front);
      var f := ExecAll(u, ZERO_REGS, front);
      if last.Commit? then Stored(u, v, before, last.instr, f[last.instr.ra], f[last.instr.rb]) else before
  }

  /** A load returns what the byte memory holds. */
  predicate Returns(u: Units, v: Codec, bytes: seq<W.Byte>, n: Instr, a: Word, b: Word, ext: Word)
    requires L.InMemory(bytes)
  {
    n.cls.Load? ==> L.ExecOut(bytes, OpOf(u, v, n, a, b), false) == L.Value(v.num(Result(u, n, a, b, ext)))
  }

  /** Outcome `k` is no committed load, or returns what the committed stores before it left. */
  predicate LoadRight(u: Units, v: Codec, bytes: seq<W.Byte>, os: seq<Outcome>, k: nat)
    requires L.InMemory(bytes) && k < |os|
  {
    os[k].Commit? ==>
      var (n, f) := (os[k].instr, ExecAll(u, ZERO_REGS, os[..k]));
      Returns(u, v, BytesAfter(u, v, bytes, os[..k]), n, f[n.ra], f[n.rb], os[k].ext)
  }

  predicate LoadsRight(u: Units, v: Codec, bytes: seq<W.Byte>, os: seq<Outcome>)
    requires L.InMemory(bytes)
  {
    forall k :: 0 <= k < |os| ==> LoadRight(u, v, bytes, os, k)
  }

  // ---------------------------------------------------------------- invariant

  function BytesAfterWB(u: Units, v: Codec, bytes: seq<W.Byte>, w: WB): (r: seq<W.Byte>)
    requires L.InMemory(bytes)
    ensures |r| == |bytes|
  {
    if w.live && w.exc == NO_EXC then Stored(u, v, bytes, w.instr, w.opA, w.opB) else bytes
  }

  /** The open request is the one of the instruction in E2: memory has performed it on `bytes`, or will
      fail it. */
  ghost predicate Opened(u: Units, v: Codec, e2: E2, bytes: seq<W.Byte>, e: L.Env)
    requires L.InMemory(bytes)
  {
    var op := OpOf(u, v, e2.instr, e2.opA, e2.opB);
    && e.open.Some? && !L.Misaligned(op)
    && B.Holds(e.rows, if e.open.value.fault then bytes else L.ExecMem(bytes, op, false))
    && (e2.instr.cls.Load? && !e.open.value.fault ==>
          L.ExecOut(bytes, op, false) == L.Value(L.Extract(EntryFor(op), e.open.value.word)))
  }

  ghost predicate Memory(u: Units, v: Codec, s: State, past: seq<W.Byte>, extW: Word, e: L.Env)
    requires L.InMemory(past)
  {
    var done := BytesAfterWB(u, v, past, s.wb);
    && (s.wb.live && s.wb.exc == NO_EXC ==> Returns(u, v, past, s.wb.instr, s.wb.opA, s.wb.opB, extW))
    && (if s.pending then Opened(u, v, s.e2, done, e) else e.open.None? && B.Holds(e.rows, done))
  }

  // ---------------------------------------------------------------- one access

  lemma PerformIsExec(rows: seq<Ram.Lanes>, bytes: seq<W.Byte>, op: L.Op)
    requires |rows| >= Ram.ROWS && B.Holds(rows, bytes) && !L.Misaligned(op)
    ensures L.InMemory(bytes) && B.Holds(Perform(rows, op), L.ExecMem(bytes, op, false))
    ensures op.load ==> L.ExecOut(bytes, op, false) == L.Value(L.Extract(EntryFor(op), rows[Ram.Row(L.Addr(op))]))
  {
    hide B.Holds, L.ExecMem, L.ExecOut, L.Extract, Ram.Write, Ram.Row, L.Misaligned;
    Lsu.Lengths(rows, bytes);
    Lsu.AccessIsExec(rows, bytes, op, false);
    if op.load {
      Lsu.ExtractIsLoad(rows, bytes, op);
    }
  }

  /** A request memory accepts is that of the instruction in E2 after the edge. */
  lemma AcceptedIsE2(c: Config, s: State, i: In)
    requires Inv(c, s) && Legal(s, i) && !Leaks(s, i) && Requesting(s, i) && i.memAccept
    ensures var e2 := Next(c, s, i).e2;
            && s.slot.acc == AccessOf(c.u, e2.instr, e2.opA, e2.opB) && !c.u.unaligned(e2.instr, e2.opA)
            && Next(c, s, i).pending && (e2.instr.cls.Load? || e2.instr.cls.Store?)
  {
  }

  lemma AcceptOpens(c: Config, v: Codec, s: State, e: L.Env, k: Clock, bytes: seq<W.Byte>)
    requires Sound(c.u, v) && Inv(c, s) && Legal(s, k.i) && !Leaks(s, k.i) && Requesting(s, k.i) && k.i.memAccept
    requires |e.rows| >= Ram.ROWS && L.InMemory(bytes) && B.Holds(e.rows, bytes)
    ensures Opened(c.u, v, Next(c, s, k.i).e2, bytes, NextEnv(v, s, e, k))
  {
    hide B.Holds, L.ExecMem, L.ExecOut, L.Extract, L.Misaligned, Perform, Inv, Leaks, Legal, Next, Ram.Row, L.Addr;
    AcceptedIsE2(c, s, k.i);
    var e2 := Next(c, s, k.i).e2;
    var op := OpOf(c.u, v, e2.instr, e2.opA, e2.opB);
    assert c.u.unaligned(e2.instr, e2.opA) <==> L.Misaligned(op);
    PerformIsExec(e.rows, bytes, op);
  }

  /** When E2 is left, memory holds what the instructions up to it leave, and a load has its value. */
  lemma LeavingE2(c: Config, v: Codec, s: State, h: Hist, e: L.Env, i: In, past: seq<W.Byte>)
    requires Sound(c.u, v) && Inv(c, s) && Legal(s, i) && !Stall(s, i) && Answers(v, e, i) && L.InMemory(past)
    requires Memory(c.u, v, s, past, h.extW, e)
    ensures var (done, w) := (BytesAfterWB(c.u, v, past, s.wb), NextWB(c, s, i));
            && B.Holds(e.rows, BytesAfterWB(c.u, v, done, w))
            && (w.live && w.exc == NO_EXC ==> Returns(c.u, v, done, w.instr, w.opA, w.opB, ExtLeavingE2(s, h, i)))
  {
    hide B.Holds, L.ExecMem, L.ExecOut, L.Extract, L.Misaligned, BytesAfterWB, EntryFor, OpOf;
    var done := BytesAfterWB(c.u, v, past, s.wb);
    if IsMemE2(s) {
      MemLeavingE2(c, v, s, h, e, i, done);
    } else {
      NoMemLeavingE2(c, v, s, i, done);
    }
  }

  lemma NoMemLeavingE2(c: Config, v: Codec, s: State, i: In, done: seq<W.Byte>)
    requires Inv(c, s) && !Stall(s, i) && !IsMemE2(s) && L.InMemory(done)
    ensures var w := NextWB(c, s, i);
            BytesAfterWB(c.u, v, done, w) == done && !s.pending && (w.live && w.exc == NO_EXC ==> !w.instr.cls.Load?)
  {
  }

  lemma MemLeavingE2(c: Config, v: Codec, s: State, h: Hist, e: L.Env, i: In, done: seq<W.Byte>)
    requires Sound(c.u, v) && Inv(c, s) && Legal(s, i) && !Stall(s, i) && Answers(v, e, i) && IsMemE2(s)
    requires L.InMemory(done)
    requires if s.pending then Opened(c.u, v, s.e2, done, e) else e.open.None? && B.Holds(e.rows, done)
    ensures var w := NextWB(c, s, i);
            && B.Holds(e.rows, BytesAfterWB(c.u, v, done, w))
            && (w.live && w.exc == NO_EXC ==> Returns(c.u, v, done, w.instr, w.opA, w.opB, ExtLeavingE2(s, h, i)))
  {
    hide B.Holds, L.ExecMem, L.ExecOut, L.Extract, L.Misaligned, EntryFor;
  }

  // ---------------------------------------------------------------- one clock

  lemma MemoryStalls(c: Config, v: Codec, s: State, h: Hist, e: L.Env, k: Clock, past: seq<W.Byte>)
    requires Sound(c.u, v) && Inv(c, s) && Legal(s, k.i) && !Leaks(s, k.i) && Stall(s, k.i) && Answers(v, e, k.i)
    requires |e.rows| >= Ram.ROWS && L.InMemory(past) && Memory(c.u, v, s, past, h.extW, e)
    ensures Memory(c.u, v, Next(c, s, k.i), past, NextHist(c, s, h, k.i).extW, NextEnv(v, s, e, k))
  {
    hide B.Holds, L.ExecMem, L.ExecOut, L.Extract, L.Misaligned, Perform, Opened, Returns, BytesAfterWB;
    if Requesting(s, k.i) && k.i.memAccept {
      AcceptOpens(c, v, s, e, k, BytesAfterWB(c.u, v, past, s.wb));
    }
  }

  lemma MemoryMoves(c: Config, v: Codec, s: State, h: Hist, e: L.Env, k: Clock, past: seq<W.Byte>)
    requires Sound(c.u, v) && Inv(c, s) && Legal(s, k.i) && !Stall(s, k.i) && Answers(v, e, k.i)
    requires Leaks(s, k.i) ==> !k.i.memAccept
    requires |e.rows| >= Ram.ROWS && L.InMemory(past) && Memory(c.u, v, s, past, h.extW, e)
    ensures Memory(c.u, v, Next(c, s, k.i), BytesAfterWB(c.u, v, past, s.wb),
                   NextHist(c, s, h, k.i).extW, NextEnv(v, s, e, k))
  {
    hide B.Holds, L.ExecMem, L.ExecOut, L.Extract, L.Misaligned, Perform, Opened, Returns, BytesAfterWB;
    LeavingE2(c, v, s, h, e, k.i, past);
    var done := BytesAfterWB(c.u, v, past, s.wb);
    if Requesting(s, k.i) && k.i.memAccept {
      AcceptOpens(c, v, s, e, k, BytesAfterWB(c.u, v, done, NextWB(c, s, k.i)));
    }
  }

  /** What retires changes the bytes of the outcomes as WB does, and a load among them is right. */
  lemma BytesSnoc(u: Units, v: Codec, bytes: seq<W.Byte>, os: seq<Outcome>, o: Outcome)
    requires L.InMemory(bytes) && LoadsRight(u, v, bytes, os)
    requires var (f, past) := (ExecAll(u, ZERO_REGS, os), BytesAfter(u, v, bytes, os));
             o.Commit? ==> Returns(u, v, past, o.instr, f[o.instr.ra], f[o.instr.rb], o.ext)
    ensures LoadsRight(u, v, bytes, os + [o])
    ensures var (f, past) := (ExecAll(u, ZERO_REGS, os), BytesAfter(u, v, bytes, os));
            BytesAfter(u, v, bytes, os + [o])
            == if o.Commit? then Stored(u, v, past, o.instr, f[o.instr.ra], f[o.instr.rb]) else past
  {
    hide Returns, Stored, ExecAll;
    var longer := os + [o];
    assert longer[..|os|] == os;
    forall k | 0 <= k < |longer| ensures LoadRight(u, v, bytes, longer, k) {
      if k < |os| {
        assert longer[..k] == os[..k] && LoadRight(u, v, bytes, os, k);
      }
    }
  }

  lemma BytesRetire(
      u: Units, v: Codec, bytes: seq<W.Byte>, os: seq<Outcome>, f: RegFile, w: WB, ext: Word, q: seq<Instr>)
    requires L.InMemory(bytes) && LoadsRight(u, v, bytes, os) && |q| <= 1
    requires GoodWB(u, f, w, ext) && f == ExecAll(u, ZERO_REGS, os)
    requires w.live && w.exc == NO_EXC ==> Returns(u, v, BytesAfter(u, v, bytes, os), w.instr, w.opA, w.opB, ext)
    ensures LoadsRight(u, v, bytes, os + Retire(w, ext, q))
    ensures BytesAfter(u, v, bytes, os + Retire(w, ext, q)) == BytesAfterWB(u, v, BytesAfter(u, v, bytes, os), w)
  {
    hide Returns, Stored, ExecAll, LoadsRight, BytesAfter;
    var mid := os + if w.live then [OutcomeOfWB(w, ext)] else [];
    if w.live {
      BytesSnoc(u, v, bytes, os, OutcomeOfWB(w, ext));
    } else {
      assert mid == os;
    }
    if q == [] {
      assert os + Retire(w, ext, q) == mid;
    } else {
      BytesSnoc(u, v, bytes, mid, Squashed(q[0]));
      assert os + Retire(w, ext, q) == mid + [Squashed(q[0])];
    }
  }

  ghost predicate Right(c: Config, v: Codec, bytes: seq<W.Byte>, x: System)
    requires L.InMemory(bytes)
  {
    && |x.e.rows| >= Ram.ROWS
    && Memory(c.u, v, x.r.s, BytesAfter(c.u, v, bytes, x.r.h.outcomes), x.r.h.extW, x.e)
    && LoadsRight(c.u, v, bytes, x.r.h.outcomes)
  }

  lemma RightStep(c: Config, v: Codec, bytes: seq<W.Byte>, x: System, k: Clock)
    requires Sound(c.u, v) && L.InMemory(bytes) && Right(c, v, bytes, x) && RunInv(c, x.r)
    requires Legal(x.r.s, k.i) && Answers(v, x.e, k.i) && (Leaks(x.r.s, k.i) ==> !k.i.memAccept)
    ensures Right(c, v, bytes, NextSystem(c, v, x, k))
  {
    hide Memory, LoadsRight, BytesAfter, BytesAfterWB, Returns, NextEnv, Inv, Legal, Answers, Ordered, MemRefines;
    var (s, h, past) := (x.r.s, x.r.h, BytesAfter(c.u, v, bytes, x.r.h.outcomes));
    if Stall(s, k.i) {
      MemoryStalls(c, v, s, h, x.e, k, past);
    } else {
      MemoryMoves(c, v, s, h, x.e, k, past);
      assert s.wb.live && s.wb.exc == NO_EXC ==> Returns(c.u, v, past, s.wb.instr, s.wb.opA, s.wb.opB, h.extW) by {
        MemoryOfWB(c, v, s, past, h.extW, x.e);
      }
      BytesRetire(c.u, v, bytes, h.outcomes, s.regs, s.wb, h.extW, h.doomed);
    }
  }

  lemma MemoryOfWB(c: Config, v: Codec, s: State, past: seq<W.Byte>, extW: Word, e: L.Env)
    requires L.InMemory(past) && Memory(c.u, v, s, past, extW, e)
    ensures s.wb.live && s.wb.exc == NO_EXC ==> Returns(c.u, v, past, s.wb.instr, s.wb.opA, s.wb.opB, extW)
  {
    hide Returns;
  }

  /** While an orphan waits, memory has nothing to do. */
  lemma OrphanedMemory(c: Config, v: Codec, s: State, h: Hist, e: L.Env, k: Clock, past: seq<W.Byte>)
    requires Orphaned(s) && Legal(s, k.i) && !k.i.memAccept && Answers(v, e, k.i)
    requires |e.rows| >= Ram.ROWS && L.InMemory(past) && Memory(c.u, v, s, past, h.extW, e)
    ensures BytesAfterWB(c.u, v, past, s.wb) == past && !Stall(s, k.i)
    ensures Memory(c.u, v, Next(c, s, k.i), past, NextHist(c, s, h, k.i).extW, NextEnv(v, s, e, k))
  {
    hide B.Holds, L.ExecMem, L.ExecOut, L.Extract, L.Misaligned, Perform, Opened, Returns;
  }

  lemma OrphanedStep(c: Config, v: Codec, bytes: seq<W.Byte>, x: System, k: Clock)
    requires L.InMemory(bytes) && Right(c, v, bytes, x)
    requires Orphaned(x.r.s) && OrderOk(x.r.s, x.r.h) && HistOk(c, x.r.s, x.r.h)
    requires Legal(x.r.s, k.i) && Answers(v, x.e, k.i) && !k.i.memAccept
    ensures Right(c, v, bytes, NextSystem(c, v, x, k))
  {
    hide Memory, LoadsRight, BytesAfter, BytesAfterWB, Returns, NextEnv, Legal, Answers, Ordered, MemRefines, Next;
    var (s, h, past) := (x.r.s, x.r.h, BytesAfter(c.u, v, bytes, x.r.h.outcomes));
    OrphanedMemory(c, v, s, h, x.e, k, past);
    BytesRetire(c.u, v, bytes, h.outcomes, s.regs, s.wb, h.extW, h.doomed);
  }

  // ---------------------------------------------------------------- every run

  lemma {:induction false} PipesOf(c: Config, v: Codec, rows: seq<Ram.Lanes>, ks: seq<Clock>)
    requires |rows| >= Ram.ROWS && MemoryRun(c, v, rows, ks)
    ensures LegalRun(c, Pipes(ks)) && AfterClocks(c, v, rows, ks).r == After(c, Pipes(ks))
  {
    if ks != [] {
      hide Legal, Answers, NextEnv, StepRun;
      var n := |ks| - 1;
      PipesOf(c, v, rows, ks[..n]);
      assert Pipes(ks)[..n] == Pipes(ks[..n]);
    }
  }

  lemma LastClock(c: Config, v: Codec, rows: seq<Ram.Lanes>, ks: seq<Clock>)
    requires |rows| >= Ram.ROWS && ks != [] && MemoryRun(c, v, rows, ks) && !OrphanAccepted(c, Pipes(ks))
    ensures var (front, k) := (ks[..|ks| - 1], ks[|ks| - 1]);
            var x := AfterClocks(c, v, rows, front);
            && MemoryRun(c, v, rows, front) && !OrphanAccepted(c, Pipes(front))
            && Legal(x.r.s, k.i) && Answers(v, x.e, k.i) && AfterClocks(c, v, rows, ks) == NextSystem(c, v, x, k)
            && (k.i.memAccept ==> LeakFree(c, Pipes(front)) && !Leaks(x.r.s, k.i))
  {
    hide Legal, Answers, NextEnv, StepRun, Leaks;
    var n := |ks| - 1;
    assert Pipes(ks)[..n] == Pipes(ks[..n]);
    PipesOf(c, v, rows, ks[..n]);
  }

  lemma {:induction false} AlwaysRight(c: Config, v: Codec, rows: seq<Ram.Lanes>, bytes: seq<W.Byte>, ks: seq<Clock>)
    requires |rows| >= Ram.ROWS && B.Holds(rows, bytes) && L.InMemory(bytes)
    requires Sound(c.u, v) && MemoryRun(c, v, rows, ks) && !OrphanAccepted(c, Pipes(ks))
    ensures Right(c, v, bytes, AfterClocks(c, v, rows, ks))
  {
    hide Legal, Answers, NextSystem, OrphanAccepted, MemoryRun, LeakFree, Leaks, B.Holds, Sound, Inv, Data, HistOk,
      OrderOk, Orphaned, Right;
    if ks == [] {
      StartsRight(c, v, rows, bytes);
    } else {
      hide AfterClocks;
      var front, k := ks[..|ks| - 1], ks[|ks| - 1];
      LastClock(c, v, rows, ks);
      AlwaysRight(c, v, rows, bytes, front);
      PipesOf(c, v, rows, front);
      ReachableUnlessAccepted(c, Pipes(front));
      ControlReachable(c, Pipes(front));
      if LeakFree(c, Pipes(front)) {
        RightStep(c, v, bytes, AfterClocks(c, v, rows, front), k);
      } else {
        OrphanedStep(c, v, bytes, AfterClocks(c, v, rows, front), k);
      }
    }
  }

  lemma StartsRight(c: Config, v: Codec, rows: seq<Ram.Lanes>, bytes: seq<W.Byte>)
    requires |rows| >= Ram.ROWS && B.Holds(rows, bytes) && L.InMemory(bytes)
    ensures Right(c, v, bytes, AfterClocks(c, v, rows, []))
  {
  }

  /** With any memory timing and any failed accesses: every committed load returns, aligned and extended
      as its instruction asks, the bytes that the committed stores before it left; and when no
      access is open or about to retire, memory holds what all committed stores left. */
  lemma {:induction false} LoadsReturnStoredBytes(
      c: Config, v: Codec, rows: seq<Ram.Lanes>, bytes: seq<W.Byte>, ks: seq<Clock>)
    requires |rows| >= Ram.ROWS && B.Holds(rows, bytes) && L.InMemory(bytes)
    requires Sound(c.u, v) && MemoryRun(c, v, rows, ks) && !OrphanAccepted(c, Pipes(ks))
    ensures var x := AfterClocks(c, v, rows, ks);
            var (s, os) := (x.r.s, x.r.h.outcomes);
            && (forall k :: 0 <= k < |os| && os[k].Commit? && os[k].instr.cls.Load? ==>
                  var (n, f) := (os[k].instr, ExecAll(c.u, ZERO_REGS, os[..k]));
                  L.ExecOut(BytesAfter(c.u, v, bytes, os[..k]), OpOf(c.u, v, n, f[n.ra], f[n.rb]), false)
                  == L.Value(v.num(Result(c.u, n, f[n.ra], f[n.rb], os[k].ext))))
            && (!s.pending && !s.wb.live ==> B.Holds(x.e.rows, BytesAfter(c.u, v, bytes, os)))
  {
    AlwaysRight(c, v, rows, bytes, ks);
    hide AfterClocks, MemoryRun, OrphanAccepted, B.Holds, L.ExecOut, Sound, ExecAll, BytesAfter, Opened, Result;
    var os := AfterClocks(c, v, rows, ks).r.h.outcomes;
    forall k | 0 <= k < |os| && os[k].Commit? && os[k].instr.cls.Load?
      ensures var (n, f) := (os[k].instr, ExecAll(c.u, ZERO_REGS, os[..k]));
              L.ExecOut(BytesAfter(c.u, v, bytes, os[..k]), OpOf(c.u, v, n, f[n.ra], f[n.rb]), false)
              == L.Value(v.num(Result(c.u, n, f[n.ra], f[n.rb], os[k].ext)))
    {
      assert LoadRight(c.u, v, bytes, os, k);
    }
  }
}
