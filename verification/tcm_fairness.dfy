/** How long a waiting read or write of the memory port can be overtaken. */
module TcmFairness {
  import opened Options
  import opened Ram
  import opened TcmModel
  import opened TcmProofs
  import opened TcmTheorems

  /** Write bursts that can still start before a read that is waiting: one if writes have priority,
      and two if a write that waits for the RAM was there first while reads have it. */
  function WritesFirst(s: State): nat {
    if s.arb.prio then 1 else if s.arb.holdWr && !s.burst.wr then 2 else 0
  }

  function ReadsFirst(s: State): nat {
    if !s.arb.prio then 1 else if s.arb.holdRd && !s.burst.rd then 2 else 0
  }

  predicate TakesAr(s: State, i: In) { ArFire(s.burst, s.arb, Room(s), ExtAccept(s), i) }
  predicate TakesAw(s: State, i: In) { AwFire(s.burst, s.arb, Room(s), ExtAccept(s), i) }

  lemma WaitingReadStep(s: State, o: Offers, i: In)
    requires Ctl(s.burst, s.arb, Room(s), o) && Legal(s, o, i) && |s.rows| >= ROWS
    requires i.ar.Some? && !TakesAr(s, i)
    ensures WritesFirst(Next(s, i)) + (if TakesAw(s, i) then 1 else 0) <= WritesFirst(s)
  {
    hide PushTag, PortAddr, PortData, PortStrobes, NextPort, NextReqs, NextResps, Write;
  }

  lemma WaitingWriteStep(s: State, o: Offers, i: In)
    requires Ctl(s.burst, s.arb, Room(s), o) && Legal(s, o, i) && |s.rows| >= ROWS
    requires i.aw.Some? && !TakesAw(s, i)
    ensures ReadsFirst(Next(s, i)) + (if TakesAr(s, i) then 1 else 0) <= ReadsFirst(s)
  {
    hide PushTag, PortAddr, PortData, PortStrobes, NextPort, NextReqs, NextResps, Write;
  }

  /** The system after more clocks, and the bursts that start in them. */
  predicate ReadWaits(x: System, ins: seq<In>)
    requires |x.s.rows| >= ROWS
    decreases |ins|
  {
    ins != [] ==>
      && Legal(x.s, x.o, ins[0]) && ins[0].ar.Some? && !TakesAr(x.s, ins[0])
      && ReadWaits(System(Next(x.s, ins[0]), NextOffers(x.s, ins[0]), Observe(x.h, x.s, ins[0])), ins[1..])
  }

  predicate WriteWaits(x: System, ins: seq<In>)
    requires |x.s.rows| >= ROWS
    decreases |ins|
  {
    ins != [] ==>
      && Legal(x.s, x.o, ins[0]) && ins[0].aw.Some? && !TakesAw(x.s, ins[0])
      && WriteWaits(System(Next(x.s, ins[0]), NextOffers(x.s, ins[0]), Observe(x.h, x.s, ins[0])), ins[1..])
  }

  function Started(s: State, ins: seq<In>, isRead: bool): nat
    requires |s.rows| >= ROWS
    decreases |ins|
  {
    if ins == [] then 0
    else
      (if (if isRead then TakesAr(s, ins[0]) else TakesAw(s, ins[0])) then 1 else 0)
      + Started(Next(s, ins[0]), ins[1..], isRead)
  }

  lemma {:induction false} ReadWaitIsBounded(rows: seq<Lanes>, x: System, ins: seq<In>)
    requires Inv(rows, x) && |x.s.rows| >= ROWS && ReadWaits(x, ins)
    ensures Started(x.s, ins, false) <= WritesFirst(x.s)
    decreases |ins|
  {
    if ins != [] {
      hide Next, NextOffers, Observe, Inv, WritesFirst, TakesAw, TakesAr, Legal;
      assert Ctl(x.s.burst, x.s.arb, Room(x.s), x.o) by { CtlOf(rows, x); }
      WaitingReadStep(x.s, x.o, ins[0]);
      StepKeeps(rows, x.s, x.o, x.h, ins[0]);
      ReadWaitIsBounded(rows, System(Next(x.s, ins[0]), NextOffers(x.s, ins[0]), Observe(x.h, x.s, ins[0])), ins[1..]);
    }
  }

  lemma {:induction false} WriteWaitIsBounded(rows: seq<Lanes>, x: System, ins: seq<In>)
    requires Inv(rows, x) && |x.s.rows| >= ROWS && WriteWaits(x, ins)
    ensures Started(x.s, ins, true) <= ReadsFirst(x.s)
    decreases |ins|
  {
    if ins != [] {
      hide Next, NextOffers, Observe, Inv, ReadsFirst, TakesAw, TakesAr, Legal;
      assert Ctl(x.s.burst, x.s.arb, Room(x.s), x.o) by { CtlOf(rows, x); }
      WaitingWriteStep(x.s, x.o, ins[0]);
      StepKeeps(rows, x.s, x.o, x.h, ins[0]);
      WriteWaitIsBounded(rows, System(Next(x.s, ins[0]), NextOffers(x.s, ins[0]), Observe(x.h, x.s, ins[0])), ins[1..]);
    }
  }

  lemma CtlOf(rows: seq<Lanes>, x: System)
    requires Inv(rows, x)
    ensures Ctl(x.s.burst, x.s.arb, Room(x.s), x.o)
  {
  }

  /** After any run, a read that waits is overtaken by at most two write bursts, and a write that
      waits by at most two read bursts, whatever the CPU does. */
  lemma OvertakenAtMostTwice(rows: seq<Lanes>, before: seq<In>, ins: seq<In>)
    requires |rows| >= ROWS && After(rows, before).Some?
    ensures var x := After(rows, before).value;
            && (ReadWaits(x, ins) ==> Started(x.s, ins, false) <= 2)
            && (WriteWaits(x, ins) ==> Started(x.s, ins, true) <= 2)
  {
    hide Inv, ReadWaits, WriteWaits, Started;
    Always(rows, before);
    var x := After(rows, before).value;
    if ReadWaits(x, ins) {
      ReadWaitIsBounded(rows, x, ins);
    }
    if WriteWaits(x, ins) {
      WriteWaitIsBounded(rows, x, ins);
    }
  }
}
