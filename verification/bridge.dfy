/** The data port's AXI master: requests and tags are queued, one transaction is open at a time,
    and a write's address and data may be taken in either order. */
module Bridge {
  import opened Options
  import opened Words
  import opened Fifo
  import opened Ram

  const DEPTH := 2

  datatype Call = Call(rd: bool, strobes: Strobes, data: Lanes, addr: Word)

  const NO_CALL := Call(false, NO_STROBE, ZERO, 0)

  datatype State = State(reqs: seq<Call>, tags: seq<nat>, pending: bool, awInhibit: bool, wInhibit: bool)

  const RESET := State([], [], false, false, false)

  datatype Answer = Answer(write: bool, data: Lanes, error: bool)

  datatype In = In(call: Option<Call>, tag: nat, awReady: bool, wReady: bool, arReady: bool, answer: Option<Answer>)

  // ---------------------------------------------------------------- wires

  predicate Accept(s: State) { |s.reqs| != DEPTH && |s.tags| != DEPTH }

  predicate InProgress(s: State, i: In) { s.pending && i.answer.None? }
  predicate IsRead(s: State, i: In) { s.reqs != [] && !InProgress(s, i) && s.reqs[0].rd }
  predicate IsWrite(s: State, i: In) { s.reqs != [] && !InProgress(s, i) && !s.reqs[0].rd }

  predicate AwValid(s: State, i: In) { IsWrite(s, i) && !s.awInhibit }
  predicate WValid(s: State, i: In) { IsWrite(s, i) && !s.wInhibit }

  predicate AwFire(s: State, i: In) { AwValid(s, i) && i.awReady }
  predicate WFire(s: State, i: In) { WValid(s, i) && i.wReady }
  predicate ArFire(s: State, i: In) { IsRead(s, i) && i.arReady }

  predicate WriteComplete(s: State, i: In) { (s.awInhibit || i.awReady) && (s.wInhibit || i.wReady) && IsWrite(s, i) }
  predicate Complete(s: State, i: In) { WriteComplete(s, i) || ArFire(s, i) }

  // ---------------------------------------------------------------- next state

  function Next(s: State, i: In): State {
    State(
      FifoNext(s.reqs, DEPTH, i.call.Some? && |s.tags| != DEPTH,
               if i.call.Some? then i.call.value else NO_CALL, Complete(s, i)),
      FifoNext(s.tags, DEPTH, i.call.Some? && |s.reqs| != DEPTH, i.tag, i.answer.Some?),
      Complete(s, i) || (s.pending && i.answer.None?),
      if AwFire(s, i) && WValid(s, i) && !i.wReady then true else if WFire(s, i) then false else s.awInhibit,
      if WFire(s, i) && AwValid(s, i) && !i.awReady then true else if AwFire(s, i) then false else s.wInhibit)
  }

  /** The slave answers the one open transaction, in kind. */
  predicate Legal(s: State, h: Hist, i: In) {
    i.answer.Some? ==> s.pending && h.done != [] && i.answer.value.write == !h.done[|h.done| - 1].rd
  }

  // ---------------------------------------------------------------- history

  /** Calls taken; calls whose transaction has been started in full; the address and data
      handshakes of writes and the address handshakes of reads. */
  datatype Hist = Hist(calls: seq<Call>, done: seq<Call>, aws: seq<Word>, ws: seq<Payload>, ars: seq<Word>)

  datatype Payload = Payload(data: Lanes, strobes: Strobes)

  const NOTHING := Hist([], [], [], [], [])

  function BusAddr(c: Call): Word { c.addr - c.addr % 4 }

  function Observe(h: Hist, s: State, i: In): Hist {
    Hist(
      if i.call.Some? && Accept(s) then h.calls + [i.call.value] else h.calls,
      if Complete(s, i) then h.done + [s.reqs[0]] else h.done,
      if AwFire(s, i) then h.aws + [BusAddr(s.reqs[0])] else h.aws,
      if WFire(s, i) then h.ws + [Payload(s.reqs[0].data, s.reqs[0].strobes)] else h.ws,
      if ArFire(s, i) then h.ars + [BusAddr(s.reqs[0])] else h.ars)
  }

  // ---------------------------------------------------------------- what calls stand for

  function Aws(calls: seq<Call>): seq<Word> {
    if calls == [] then []
    else Aws(calls[..|calls| - 1]) + if calls[|calls| - 1].rd then [] else [BusAddr(calls[|calls| - 1])]
  }

  function Ws(calls: seq<Call>): seq<Payload> {
    if calls == [] then []
    else
      var c := calls[|calls| - 1];
      Ws(calls[..|calls| - 1]) + if c.rd then [] else [Payload(c.data, c.strobes)]
  }

  function Ars(calls: seq<Call>): seq<Word> {
    if calls == [] then []
    else Ars(calls[..|calls| - 1]) + if calls[|calls| - 1].rd then [BusAddr(calls[|calls| - 1])] else []
  }

  lemma LogsSnoc(calls: seq<Call>, c: Call)
    ensures Aws(calls + [c]) == Aws(calls) + if c.rd then [] else [BusAddr(c)]
    ensures Ws(calls + [c]) == Ws(calls) + if c.rd then [] else [Payload(c.data, c.strobes)]
    ensures Ars(calls + [c]) == Ars(calls) + if c.rd then [BusAddr(c)] else []
  {
    assert (calls + [c])[..|calls|] == calls;
  }

  // ---------------------------------------------------------------- invariant

  /** One tag for each queued call and one for the open transaction; an inhibit flag is up only
      for the write at the head of the queue, whose other half is still to be taken. */
  predicate Queues(s: State) {
    && |s.tags| == |s.reqs| + (if s.pending then 1 else 0)
    && |s.tags| <= DEPTH
    && !(s.awInhibit && s.wInhibit)
    && (s.awInhibit || s.wInhibit ==> !s.pending && s.reqs != [] && !s.reqs[0].rd)
  }

  lemma QueuesStep(s: State, i: In)
    requires Queues(s) && (i.answer.Some? ==> s.pending)
    ensures Queues(Next(s, i))
    ensures Complete(s, i) ==> s.reqs != []
  {
  }

  ghost predicate Lined(s: State, h: Hist) { h.calls == h.done + s.reqs }

  lemma LinedStep(s: State, h: Hist, i: In)
    requires Queues(s) && Lined(s, h)
    ensures Lined(Next(s, i), Observe(h, s, i))
  {
    assert Complete(s, i) ==> s.reqs != [] by { CompletesHead(s, i); }
    hide WriteComplete, ArFire;
    var rest := if Complete(s, i) then s.reqs[1..] else s.reqs;
    var done := if Complete(s, i) then h.done + [s.reqs[0]] else h.done;
    assert done + rest == h.calls;
    if i.call.Some? && Accept(s) {
      assert done + (rest + [i.call.value]) == (done + rest) + [i.call.value];
    }
  }

  lemma CompletesHead(s: State, i: In)
    ensures Complete(s, i) ==> s.reqs != []
  {
  }

  /** Every write is handshaken once on each channel with its own request, possibly one channel
      ahead of the other; every read once. */
  ghost predicate Handshakes(s: State, h: Hist) {
    && h.aws == Aws(h.done) + (if s.awInhibit && s.reqs != [] then [BusAddr(s.reqs[0])] else [])
    && h.ws == Ws(h.done) + (if s.wInhibit && s.reqs != [] then [Payload(s.reqs[0].data, s.reqs[0].strobes)] else [])
    && h.ars == Ars(h.done)
  }

  lemma HandshakesStep(s: State, h: Hist, i: In)
    requires Queues(s) && Handshakes(s, h) && (i.answer.Some? ==> s.pending)
    ensures Handshakes(Next(s, i), Observe(h, s, i))
  {
    hide Aws, Ws, Ars, BusAddr;
    QueuesStep(s, i);
    if Complete(s, i) {
      LogsSnoc(h.done, s.reqs[0]);
    }
    if s.reqs != [] && !Complete(s, i) {
      assert Next(s, i).reqs[0] == s.reqs[0];
    }
  }

  // ---------------------------------------------------------------- registers

  class AxiBridge {
    const reqs: RingFifo<Call>
    const tags: RingFifo<nat>
    var flags: Flags

    ghost predicate Valid()
      reads this, reqs, reqs.ram, tags, tags.ram
    {
      reqs.Valid() && tags.Valid() && reqs.depth == DEPTH && tags.depth == DEPTH
    }

    ghost function View(): (s: State)
      reads this, reqs, reqs.ram, tags, tags.ram
      requires Valid()
    {
      State(reqs.Contents(), tags.Contents(), flags.pending, flags.awInhibit, flags.wInhibit)
    }

    constructor ()
      ensures Valid() && View() == RESET
    {
      flags := Flags(false, false, false);
      reqs := new RingFifo<Call>(DEPTH, NO_CALL);
      tags := new RingFifo<nat>(DEPTH, 0);
    }

    method Room() returns (r: bool)
      requires Valid()
      ensures r == Accept(View())
    {
      r := reqs.Accept() && tags.Accept();
    }

    /** What is presented this clock, and whether the head of the queue is then done with. */
    method Wires(i: In) returns (aw: bool, w: bool, complete: bool)
      requires Valid()
      ensures var s := View(); aw == AwValid(s, i) && w == WValid(s, i) && complete == Complete(s, i)
    {
      aw, w, complete := false, false, false;
      if reqs.HasData() && !(flags.pending && i.answer.None?) {
        var head := reqs.Head();
        if head.rd {
          complete := i.arReady;
        } else {
          aw, w := !flags.awInhibit, !flags.wInhibit;
          complete := (flags.awInhibit || i.awReady) && (flags.wInhibit || i.wReady);
        }
      }
    }

    method ClockQueues(i: In, complete: bool)
      requires Valid()
      modifies reqs, reqs.ram, tags, tags.ram
      ensures Valid()
      ensures reqs.Contents() == FifoNext(old(reqs.Contents()), DEPTH, i.call.Some? && |old(tags.Contents())| != DEPTH,
                                          if i.call.Some? then i.call.value else NO_CALL, complete)
      ensures tags.Contents() == FifoNext(old(tags.Contents()), DEPTH, i.call.Some? && |old(reqs.Contents())| != DEPTH,
                                          i.tag, i.answer.Some?)
    {
      hide FifoNext;
      var reqRoom, tagRoom := reqs.Accept(), tags.Accept();
      reqs.Step(i.call.Some? && tagRoom, if i.call.Some? then i.call.value else NO_CALL, complete);
      tags.Step(i.call.Some? && reqRoom, i.tag, i.answer.Some?);
    }

    /** One clock edge. */
    method Step(i: In)
      requires Valid()
      modifies this, reqs, reqs.ram, tags, tags.ram
      ensures Valid() && View() == Next(old(View()), i)
    {
      hide FifoNext, RingFifo.Contents, RingFifo.Valid, AwValid, WValid, Complete;
      var aw, w, complete := Wires(i);
      var next := ClockFlags(flags, aw, w, complete, i);
      ClockQueues(i, complete);
      flags := next;
    }
  }

  datatype Flags = Flags(pending: bool, awInhibit: bool, wInhibit: bool)

  method ClockFlags(f: Flags, aw: bool, w: bool, complete: bool, i: In) returns (n: Flags)
    ensures n == Flags(
      complete || (f.pending && i.answer.None?),
      if aw && i.awReady && w && !i.wReady then true else if w && i.wReady then false else f.awInhibit,
      if w && i.wReady && aw && !i.awReady then true else if aw && i.awReady then false else f.wInhibit)
  {
    n := f;
    if complete {
      n := n.(pending := true);
    } else if i.answer.Some? {
      n := n.(pending := false);
    }
    if aw && i.awReady && w && !i.wReady {
      n := n.(awInhibit := true);
    } else if w && i.wReady {
      n := n.(awInhibit := false);
    }
    if w && i.wReady && aw && !i.awReady {
      n := n.(wInhibit := true);
    } else if aw && i.awReady {
      n := n.(wInhibit := false);
    }
  }
}
