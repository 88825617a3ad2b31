/** The load/store unit as registers and a FIFO ring, updated in place once a clock. */
module LsuUnit {
  import opened Options
  import opened Words
  import opened Fifo
  import opened Ram
  import opened ByteMemory
  import opened LsuModel

  class LoadStoreUnit {
    const fifo: RingFifo<Entry>
    var req: Request
    var pending: bool
    var unalignedE2: bool

    ghost predicate Valid()
      reads this, fifo, fifo.ram
    { fifo.Valid() && fifo.depth == FIFO_DEPTH }

    ghost function View(): (s: State)
      reads this, fifo, fifo.ram
      requires Valid()
    {
      State(req, pending, unalignedE2, fifo.Contents())
    }

    constructor ()
      ensures Valid() && View() == RESET
    {
      req, pending, unalignedE2 := NO_REQUEST, false, false;
      fifo := new RingFifo<Entry>(FIFO_DEPTH, EntryOf(NO_REQUEST));
    }

    /** The result bus before the clock edge. */
    method Response(i: In) returns (r: Option<Outcome>)
      requires Valid()
      ensures r == Respond(View(), i)
    {
      hide Extract;
      r := None;
      if (i.ack.Some? || unalignedE2) && fifo.HasData() {
        var e := fifo.Head();
        if unalignedE2 {
          r := Some(AlignFault(e.load, e.addr));
        } else if i.ack.value.error {
          r := Some(AccessFault(e.load, e.addr));
        } else if e.load {
          var x := LoadResult(e, i.ack.value.data);
          r := Some(Value(x));
        } else {
          r := Some(Stored);
        }
      }
    }

    /** One clock edge. */
    method Step(i: In)
      requires Valid()
      modifies this, fifo, fifo.ram
      ensures Valid() && View() == Next(old(View()), i)
    {
      hide Decode, FifoNext, RingFifo.Contents, RingFifo.Valid;
      var delay := pending && !CompleteOk(i);
      var rd, wr := req.rd && !delay, if delay then NO_STROBE else req.strobes;
      var fires := (rd || Any(wr)) && i.accept;
      var push, pop := fires || (req.unaligned && !delay), i.ack.Some? || unalignedE2;
      fifo.Step(push, EntryOf(req), pop);
      var nextUnaligned := req.unaligned && !delay;
      if CompleteErr(i) || unalignedE2 {
        req := NO_REQUEST;
      } else if (req.rd || Any(req.strobes) || req.unaligned) && delay {
      } else if !((rd || Any(wr)) && !i.accept) {
        req := Decode(i.op);
      }
      if fires {
        pending := true;
      } else if i.ack.Some? {
        pending := false;
      }
      unalignedE2 := nextUnaligned;
    }
  }

  /** The result of a load from the word read, step by step as the unit forms it. */
  method LoadResult(e: Entry, l: Lanes) returns (x: Word)
    ensures x == Extract(e, l)
  {
    var at := e.addr % 4;
    if e.byte {
      x := Assemble(Lane(l, at), 0, 0, 0);
      if e.signed && x >= 128 {
        x := x + 0xffff_ff00;
      }
    } else if e.half {
      x := if at / 2 == 1 then Assemble(l.b2, l.b3, 0, 0) else Assemble(l.b0, l.b1, 0, 0);
      if e.signed && x >= 0x8000 {
        x := x + 0xffff_0000;
      }
    } else {
      x := WordOf(l);
    }
  }
}
