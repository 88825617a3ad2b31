/** The load/store unit's data side: lane steering, the request registers, the gate that keeps one
    access outstanding, the request FIFO and the extraction of load results. */
module LsuModel {
  import opened Options
  import opened Words
  import opened Fifo
  import opened Ram
  import opened ByteMemory

  const FIFO_DEPTH := 2

  datatype Op = Op(load: bool, width: Width, signed: bool, base: Word, offset: int, value: Word)

  function Addr(op: Op): Word { Wrap(op.base + op.offset) }

  predicate Misaligned(op: Op) { !Aligned(Addr(op), op.width) }

  // ---------------------------------------------------------------- registers

  datatype Request = Request(addr: Word, data: Lanes, rd: bool, strobes: Strobes, unaligned: bool,
                             load: bool, xb: bool, xh: bool, signed: bool)

  const NO_REQUEST := Request(0, ZERO, false, NO_STROBE, false, false, false, false, false)

  /** What the FIFO keeps of an access until its response. */
  datatype Entry = Entry(addr: Word, signed: bool, half: bool, byte: bool, load: bool)

  datatype State = State(req: Request, pending: bool, unalignedE2: bool, fifo: seq<Entry>)

  const RESET := State(NO_REQUEST, false, false, [])

  datatype Ack = Ack(data: Lanes, error: bool)
  datatype In = In(op: Option<Op>, accept: bool, ack: Option<Ack>)

  // ---------------------------------------------------------------- lane steering

  function Decode(op: Option<Op>): Request {
    if op.None? then NO_REQUEST
    else
      var o, a := op.value, Addr(op.value);
      var store := !o.load && !Misaligned(o);
      Request(a, if store then StoreLanes(o.value, o.width, a % 4) else ZERO,
              o.load && !Misaligned(o),
              if store then StoreStrobes(o.width, a % 4) else NO_STROBE,
              Misaligned(o), o.load, o.width.OneByte?, o.width.Half?, o.load && o.signed)
  }

  function EntryOf(r: Request): Entry { Entry(r.addr, r.signed, r.xh, r.xb, r.load) }

  // ---------------------------------------------------------------- wires

  predicate CompleteOk(i: In) { i.ack.Some? && !i.ack.value.error }
  predicate CompleteErr(i: In) { i.ack.Some? && i.ack.value.error }

  /** The older access is still without a good response. */
  predicate Delay(s: State, i: In) { s.pending && !CompleteOk(i) }

  predicate RdOut(s: State, i: In) { s.req.rd && !Delay(s, i) }
  function WrOut(s: State, i: In): Strobes { if Delay(s, i) then NO_STROBE else s.req.strobes }
  predicate Requests(s: State, i: In) { RdOut(s, i) || Any(WrOut(s, i)) }
  predicate Fires(s: State, i: In) { Requests(s, i) && i.accept }
  predicate Busy(r: Request) { r.rd || Any(r.strobes) || r.unaligned }

  predicate Stall(s: State, i: In) { (Requests(s, i) && !i.accept) || Delay(s, i) || s.req.unaligned }

  predicate Squash(s: State, i: In) { CompleteErr(i) || s.unalignedE2 }

  predicate Push(s: State, i: In) { Fires(s, i) || (s.req.unaligned && !Delay(s, i)) }
  predicate Pop(s: State, i: In) { i.ack.Some? || s.unalignedE2 }

  predicate Captures(s: State, i: In) {
    && !Squash(s, i)
    && !(Busy(s.req) && Delay(s, i))
    && !(Requests(s, i) && !i.accept)
  }

  // ---------------------------------------------------------------- next state

  function Next(s: State, i: In): State {
    State(
      if Squash(s, i) then NO_REQUEST else if Captures(s, i) then Decode(i.op) else s.req,
      Fires(s, i) || (s.pending && i.ack.None?),
      s.req.unaligned && !Delay(s, i),
      FifoNext(s.fifo, FIFO_DEPTH, Push(s, i), EntryOf(s.req), Pop(s, i)))
  }

  // ---------------------------------------------------------------- responses

  /** The result of a load: the lanes the entry asks for, extended as it asks. */
  function Extract(e: Entry, l: Lanes): Word {
    var at := e.addr % 4;
    if e.byte then (if e.signed then SignExtend(Assemble(Lane(l, at), 0, 0, 0), OneByte) else Assemble(Lane(l, at), 0, 0, 0))
    else if e.half then
      var x := if at / 2 == 1 then Assemble(l.b2, l.b3, 0, 0) else Assemble(l.b0, l.b1, 0, 0);
      if e.signed then SignExtend(x, Half) else x
    else WordOf(l)
  }

  datatype Outcome = Value(word: Word) | Stored | AlignFault(load: bool, badAddr: Word) | AccessFault(load: bool, badAddr: Word)

  function Respond(s: State, i: In): Option<Outcome> {
    if !Pop(s, i) || s.fifo == [] then None
    else
      var e := s.fifo[0];
      if s.unalignedE2 then Some(AlignFault(e.load, e.addr))
      else if CompleteErr(i) then Some(AccessFault(e.load, e.addr))
      else Some(if e.load then Value(Extract(e, i.ack.value.data)) else Stored)
  }

  // ---------------------------------------------------------------- the memory behind the unit

  /** The access the memory has taken and not yet answered: the word it read, or that it failed. */
  datatype Served = Served(word: Lanes, fault: bool)
  datatype Env = Env(rows: seq<Lanes>, open: Option<Served>)

  /** Memory performs an access when it takes it, unless it will fail it. */
  function NextEnv(s: State, e: Env, i: In, fault: bool): Env
    requires |e.rows| >= ROWS
  {
    var addr := s.req.addr - s.req.addr % 4;
    if Fires(s, i) then
      Env(if fault then e.rows else Write(e.rows, addr, s.req.data, WrOut(s, i)), Some(Served(e.rows[Row(addr)], fault)))
    else Env(e.rows, if i.ack.Some? then None else e.open)
  }

  /** Operations come only when the unit does not stall; a response answers the open access. */
  predicate Legal(s: State, e: Env, i: In) {
    && (i.op.Some? ==> !Stall(s, i))
    && (i.ack.Some? ==>
          && e.open.Some? && i.ack.value.error == e.open.value.fault
          && (!i.ack.value.error ==> i.ack.value.data == e.open.value.word))
  }

  // ---------------------------------------------------------------- history

  /** Operations taken and not squashed, whether memory failed each one that has left the request
      registers, and the results so far. */
  datatype Hist = Hist(ops: seq<Op>, faults: seq<bool>, outs: seq<Outcome>)

  function Observe(h: Hist, s: State, i: In, fault: bool): Hist {
    var faults := if Push(s, i) then h.faults + [Fires(s, i) && fault] else h.faults;
    Hist(
      if Squash(s, i) then h.ops[..if |faults| <= |h.ops| then |faults| else |h.ops|]
      else if Captures(s, i) && i.op.Some? then h.ops + [i.op.value] else h.ops,
      faults,
      match Respond(s, i) case None => h.outs case Some(o) => h.outs + [o])
  }

  datatype Input = Input(i: In, fault: bool)
  datatype System = System(s: State, e: Env, h: Hist)

  function After(rows: seq<Lanes>, ins: seq<Input>): (r: Option<System>)
    requires |rows| >= ROWS
    ensures r.Some? ==> |r.value.e.rows| == |rows|
  {
    if ins == [] then Some(System(RESET, Env(rows, None), Hist([], [], [])))
    else
      match After(rows, ins[..|ins| - 1])
      case None => None
      case Some(System(s, e, h)) =>
        var Input(i, fault) := ins[|ins| - 1];
        if Legal(s, e, i) then Some(System(Next(s, i), NextEnv(s, e, i, fault), Observe(h, s, i, fault))) else None
  }

  // ---------------------------------------------------------------- sequential reference

  /** Where an address lies in the memory the RAM decodes. */
  function Place(a: Word): nat { 4 * Row(a) + a % 4 }

  predicate InMemory(bytes: seq<Byte>) { |bytes| >= 4 * ROWS }

  lemma PlaceFits(op: Op, bytes: seq<Byte>)
    requires InMemory(bytes) && !Misaligned(op)
    ensures Aligned(Addr(op) % 4, op.width) && Place(Addr(op)) + Size(op.width) <= |bytes|
  {
    InRow(Addr(op), op.width);
  }

  function ExecMem(bytes: seq<Byte>, op: Op, fault: bool): (r: seq<Byte>)
    requires InMemory(bytes)
    ensures |r| == |bytes|
  {
    if Misaligned(op) || fault || op.load then bytes
    else
      PlaceFits(op, bytes);
      StoreLE(bytes, Place(Addr(op)), op.value, op.width)
  }

  function ExecOut(bytes: seq<Byte>, op: Op, fault: bool): Outcome
    requires InMemory(bytes)
  {
    if Misaligned(op) then AlignFault(op.load, Addr(op))
    else if fault then AccessFault(op.load, Addr(op))
    else if op.load then
      PlaceFits(op, bytes);
      Value(LoadLE(bytes, Place(Addr(op)), op.width, op.signed))
    else Stored
  }

  /** Memory after the first `n` operations, run one after another. */
  function RunMem(bytes: seq<Byte>, ops: seq<Op>, faults: seq<bool>, n: nat): (r: seq<Byte>)
    requires InMemory(bytes) && n <= |ops| && n <= |faults|
    ensures |r| == |bytes|
  {
    if n == 0 then bytes else ExecMem(RunMem(bytes, ops, faults, n - 1), ops[n - 1], faults[n - 1])
  }

  /** The result of operation `n`. */
  function RunOut(bytes: seq<Byte>, ops: seq<Op>, faults: seq<bool>, n: nat): Outcome
    requires InMemory(bytes) && n < |ops| && n < |faults|
  {
    ExecOut(RunMem(bytes, ops, faults, n), ops[n], faults[n])
  }
}
