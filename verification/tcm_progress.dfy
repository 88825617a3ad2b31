/** With a master that takes its responses and offers its write data, the memory port finishes
    every accepted burst within a bound, whatever the CPU does and whatever bursts come after it. */
module TcmProgress {
  import opened Options
  import opened Ram
  import opened TcmModel
  import opened TcmProofs
  import opened TcmTheorems

  /** The master takes every response and has the data of an open write burst ready. */
  predicate Eager(s: State, i: In) { i.rReady && i.bReady && (s.burst.wr ==> i.w.Some?) }

  predicate EagerRun(rows: seq<Lanes>, before: seq<In>, ins: seq<In>)
    requires |rows| >= ROWS
    decreases |ins|
  {
    var n := |ins| - 1;
    After(rows, before + ins).Some? &&
    (ins == [] || (EagerRun(rows, before, ins[..n]) && Eager(After(rows, before + ins[..n]).value.s, ins[n])))
  }

  /** Clocks that the first `n` beats can still take: four for one that has not reached the RAM, two
      for one whose response waits, and one for the word on the RAM output or the CPU's turn. */
  function Left(n: nat, s: State, h: Hist): nat {
    var done, made := |h.popped|, |h.popped| + |s.reqs|;
    (if made < n then 4 * (n - made) + (if s.port.cpuTurn then 1 else 0) else 0)
    + (if done < n then 2 * ((if made < n then made else n) - done) + (if s.port.extAck && made <= n then 1 else 0) else 0)
  }

  lemma {:induction false} SameTags(who: seq<Who>, log: seq<Access>)
    requires |who| == |log|
    ensures |Beats(who, log)| == |ExtTaken(who, log)|
    ensures forall k :: 0 <= k < |Beats(who, log)| ==> Beats(who, log)[k].tag == ExtTaken(who, log)[k].tag
  {
    if log != [] {
      SameTags(who[..|log| - 1], log[..|log| - 1]);
    }
  }

  /** A beat of an accepted burst that has not reached the RAM is owed by the sequencer. */
  lemma OwedIsOpen(rows: seq<Lanes>, x: System)
    requires Inv(rows, x)
    ensures |x.h.popped| + |x.s.reqs| + |Remaining(x.s.burst)| == |UnrollAll(x.h.orders)|
  {
    SameTags(x.h.who, x.h.log);
    AnswersMatch(x.s, x.h);
  }

  lemma LeftDrops(n: nat, s: State, o: Offers, h: Hist, i: In)
    requires Counts(s) && Ctl(s.burst, s.arb, Room(s), o) && Legal(s, o, i) && Eager(s, i) && |s.rows| >= ROWS
    requires |h.popped| < n <= |h.popped| + |s.reqs| + |Remaining(s.burst)|
    ensures Left(n, Next(s, i), Observe(h, s, i)) < Left(n, s, h)
  {
    hide NextBurst, NextArb, PushTag, PortAddr, PortData, PortStrobes, Write, WritePrio, ReadPrio, Unroll, Ordered,
      WFire;
    CountsStep(s, i);
  }

  lemma LastClock(rows: seq<Lanes>, before: seq<In>, ins: seq<In>)
    requires |rows| >= ROWS && ins != [] && After(rows, before + ins).Some?
    ensures var (front, i) := (ins[..|ins| - 1], ins[|ins| - 1]);
            && After(rows, before + front).Some?
            && var System(s, o, h) := After(rows, before + front).value;
               Legal(s, o, i) && After(rows, before + ins).value == System(Next(s, i), NextOffers(s, i), Observe(h, s, i))
  {
    assert (before + ins)[..|before + ins| - 1] == before + ins[..|ins| - 1];
  }

  lemma {:induction false} OrdersGrow(rows: seq<Lanes>, before: seq<In>, ins: seq<In>)
    requires |rows| >= ROWS && After(rows, before + ins).Some?
    ensures After(rows, before).Some?
    ensures UnrollAll(After(rows, before).value.h.orders) <= UnrollAll(After(rows, before + ins).value.h.orders)
  {
    if ins == [] {
      assert before + ins == before;
    } else {
      hide After, UnrollAll, Next, NextOffers, ArFire, AwFire, WFire, Legal;
      var n := |ins| - 1;
      LastClock(rows, before, ins);
      OrdersGrow(rows, before, ins[..n]);
      var System(s, _, h) := After(rows, before + ins[..n]).value;
      UnrollSnoc(h.orders, Order(true, if ins[n].ar.Some? then ins[n].ar.value else Command(0, 0, 0)));
      UnrollSnoc(h.orders, Order(false, if ins[n].aw.Some? then ins[n].aw.value else Command(0, 0, 0)));
    }
  }

  lemma {:induction false} EagerDrains(rows: seq<Lanes>, before: seq<In>, ins: seq<In>, n: nat)
    requires |rows| >= ROWS && EagerRun(rows, before, ins) && After(rows, before).Some?
    requires n <= |UnrollAll(After(rows, before).value.h.orders)|
    ensures var (x, y) := (After(rows, before).value, After(rows, before + ins).value);
            |y.h.popped| >= n || Left(n, y.s, y.h) + |ins| <= Left(n, x.s, x.h)
  {
    if ins == [] {
      assert before + ins == before;
    } else {
      hide After, UnrollAll, Next, NextOffers, Observe, Legal, Left, Inv, Counts, Ctl, Eager, Remaining;
      var k := |ins| - 1;
      LastClock(rows, before, ins);
      EagerDrains(rows, before, ins[..k], n);
      OrdersGrow(rows, before, ins[..k]);
      var x := After(rows, before + ins[..k]).value;
      Always(rows, before + ins[..k]);
      OwedIsOpen(rows, x);
      assert Counts(x.s) && Ctl(x.s.burst, x.s.arb, Room(x.s), x.o) by { PartsOf(rows, x); }
      if |x.h.popped| < n {
        LeftDrops(n, x.s, x.o, x.h, ins[k]);
      }
    }
  }

  lemma PartsOf(rows: seq<Lanes>, x: System)
    requires Inv(rows, x)
    ensures Counts(x.s) && Ctl(x.s.burst, x.s.arb, Room(x.s), x.o)
  {
  }

  lemma {:induction false} KindsOfTags(t: seq<Taken>, b: seq<Beat>)
    requires |t| == |b| && forall k :: 0 <= k < |t| ==> t[k].tag == b[k].tag
    ensures TagKinds(t) == BeatKinds(b)
  {
    if t != [] {
      KindsOfTags(t[..|t| - 1], b[..|b| - 1]);
    }
  }

  /** Responses that answer the beats of a prefix of the commands are all that those are owed. */
  lemma PrefixIsAnswered(rows: seq<Lanes>, x: System, orders: seq<Order>)
    requires Inv(rows, x) && UnrollAll(orders) <= UnrollAll(x.h.orders) && |UnrollAll(orders)| <= |x.h.popped|
    ensures OwedAll(orders) <= Kinds(Visible(x.h.popped))
  {
    hide UnrollAll, Ctl, Memory, WritesCarryBeats, CallsMade, Counts, Zip, Answers,
      Kinds, Visible, OwedAll, TagKinds, BeatKinds, Beats, ExtTaken, CpuServed, Remaining;
    var n := |UnrollAll(orders)|;
    var made, taken := Beats(x.h.who, x.h.log), x.h.popped;
    SameTags(x.h.who, x.h.log);
    assert |x.h.popped| <= |made| by { AnswersMatch(x.s, x.h); }
    assert UnrollAll(orders) == made[..n];
    KindsOfTags(taken[..n], made[..n]);
    OrdersAreOwed(orders);
    KindsOfVisible(taken);
    TagKindsConcat(taken[..n], taken[n..]);
    assert taken == taken[..n] + taken[n..];
  }

  /** Every burst accepted by some clock is answered in full, all its read beats or its write response,
      four clocks a beat and two more later, if the master takes responses and has its write data. */
  lemma {:induction false} AcceptedBurstsFinish(rows: seq<Lanes>, before: seq<In>, ins: seq<In>)
    requires |rows| >= ROWS && After(rows, before).Some? && EagerRun(rows, before, ins)
    requires var h := After(rows, before).value.h; |ins| >= 4 * (|UnrollAll(h.orders)| - |h.popped|) + 2
    ensures OwedAll(After(rows, before).value.h.orders) <= Kinds(Visible(After(rows, before + ins).value.h.popped))
  {
    hide Inv, UnrollAll, OwedAll, Kinds, Visible;
    var (x, y) := (After(rows, before).value, After(rows, before + ins).value);
    var n := |UnrollAll(x.h.orders)|;
    Always(rows, before);
    Always(rows, before + ins);
    OwedIsOpen(rows, x);
    EagerDrains(rows, before, ins, n);
    OrdersGrow(rows, before, ins);
    PrefixIsAnswered(rows, y, x.h.orders);
  }
}
