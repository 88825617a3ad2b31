/** Invariants of the memory port, one clock at a time. */
module TcmProofs {
  import opened Options
  import opened Words
  import opened Fifo
  import opened Ram
  import opened TcmModel

  // ---------------------------------------------------------------- arbitration

  /** One burst at a time; a request held for the RAM is still being made, and alone. */
  ghost predicate Ctl(b: Burst, a: Arb, room: bool, o: Offers) {
    && !(b.rd && b.wr)
    && (a.holdRd ==> !a.holdWr && !b.wr && room && (b.rd || o.ar.Some?))
    && (a.holdWr ==> !b.rd && room && o.w.Some? && (b.wr || o.aw.Some?))
  }

  lemma Exclusive(b: Burst, a: Arb, room: bool, o: Offers, i: In)
    requires Ctl(b, a, room, o)
    ensures !(WriteActive(b, a, room, i) && ReadActive(b, a, room, i))
  {
  }

  lemma CtlStep(s: State, o: Offers, i: In)
    requires Ctl(s.burst, s.arb, Room(s), o)
    requires Legal(s, o, i)
    requires |s.reqs| <= DEPTH && |s.rows| >= ROWS
    ensures var n := Next(s, i); Ctl(n.burst, n.arb, Room(n), NextOffers(s, i))
  {
    hide PushTag, PortAddr, PortData, PortStrobes, NextPort, NextResps, Write;
    Exclusive(s.burst, s.arb, Room(s), o, i);
  }

  // ---------------------------------------------------------------- bursts

  /** A clock serves the next owed beat, or starts the burst whose address is taken. */
  lemma BurstStep(s: State, o: Offers, i: In)
    requires Ctl(s.burst, s.arb, Room(s), o)
    requires Legal(s, o, i)
    ensures
      var (b, a, room, acc) := (s.burst, s.arb, Room(s), ExtAccept(s));
      (if Push(b, a, room, acc, i) then [Beat(RamAddr(b, a, room, i), PushTag(b, a, room, acc, i))] else [])
      + Remaining(NextBurst(b, a, room, acc, i))
      == Remaining(b)
         + (if ArFire(b, a, room, acc, i) then Unroll(true, i.ar.value.addr, i.ar.value.len, i.ar.value.id)
            else if AwFire(b, a, room, acc, i) then Unroll(false, i.aw.value.addr, i.aw.value.len, i.aw.value.id)
            else [])
  {
    hide NextAddr;
    Exclusive(s.burst, s.arb, Room(s), o, i);
  }

  /** A write beat is taken exactly when its RAM write is pushed. */
  lemma WriteBeatIsPushed(b: Burst, a: Arb, room: bool, o: Offers, acc: bool, i: In)
    requires Ctl(b, a, room, o)
    requires i.w.Some? ==> Any(i.w.value.strobes)
    ensures WFire(b, a, room, acc, i) <==> Push(b, a, room, acc, i) && !PushTag(b, a, room, acc, i).isRead
    ensures WFire(b, a, room, acc, i) ==> RamStrobes(b, a, room, i) == i.w.value.strobes
  {
    Exclusive(b, a, room, o, i);
  }

  // ---------------------------------------------------------------- FIFOs

  /** Every request in the FIFO has its word in the response FIFO or on the RAM output. */
  ghost predicate Counts(s: State) {
    && |s.reqs| == |s.resps| + (if s.port.extAck then 1 else 0)
    && |s.reqs| <= DEPTH
    && !(s.port.extAck && s.port.cpuAck)
  }

  lemma CountsStep(s: State, i: In)
    requires Counts(s)
    requires |s.rows| >= ROWS
    ensures Counts(Next(s, i))
    ensures |s.resps| == DEPTH ==> !s.port.extAck
    ensures Push(s.burst, s.arb, Room(s), ExtAccept(s), i) ==> Room(s)
  {
    hide NextBurst, NextArb, PushTag, PortAddr, PortData, PortStrobes, Write, WritePrio, ReadPrio;
  }

  // ---------------------------------------------------------------- the RAM port

  lemma NoStrobeNoChange(rows: seq<Lanes>, addr: Word, data: Lanes, s: Strobes)
    requires |rows| >= ROWS && !Any(s)
    ensures Write(rows, addr, data, s) == rows
  {
    hide Row;
    assert Merge(rows[Row(addr)], data, s) == rows[Row(addr)];
  }

  ghost predicate Memory(rows0: seq<Lanes>, s: State, h: Hist) {
    && |rows0| == |s.rows| >= ROWS
    && |h.who| == |h.log|
    && Sequential(rows0, h.log)
    && s.rows == Replay(rows0, h.log)
  }

  lemma MemoryStep(rows0: seq<Lanes>, s: State, h: Hist, i: In)
    requires Memory(rows0, s, h)
    ensures Memory(rows0, Next(s, i), Observe(h, s, i))
  {
    hide NextBurst, NextArb, NextPort, NextReqs, NextResps, PushTag, PortAddr, PortData, Ordered, WFire, Pop, Row,
      Merge, WriteActive, ReadActive, Write, Replay;
    if Accessed(s, i) {
      SequentialSnoc(rows0, h.log, AccessNow(s, i));
    } else {
      NoStrobeNoChange(s.rows, PortAddr(s, i), PortData(s, i), PortStrobes(s, i));
    }
  }

  // ---------------------------------------------------------------- history

  lemma SnocAll(who: seq<Who>, log: seq<Access>, w: Who, a: Access)
    requires |who| == |log|
    ensures Beats(who + [w], log + [a]) == Beats(who, log) + if w.Ext? then [Beat(a.addr, w.tag)] else []
    ensures ExtTaken(who + [w], log + [a]) == ExtTaken(who, log) + if w.Ext? then [Taken(w.tag, a.seen)] else []
    ensures CpuServed(who + [w], log + [a]) == CpuServed(who, log) + if w.Cpu? then [Served(w.cpuTag, a.seen)] else []
    ensures CpuAsked(who + [w], log + [a])
            == CpuAsked(who, log) + if w.Cpu? then [Asked(w.cpuTag, a.addr, a.data, a.strobes)] else []
    ensures ExtWrites(who + [w], log + [a])
            == ExtWrites(who, log) + if w.Ext? && !w.tag.isRead then [Payload(a.data, a.strobes)] else []
  {
    assert (who + [w])[..|who|] == who && (log + [a])[..|log|] == log;
  }

  ghost predicate BeatsInOrder(b: Burst, h: Hist) {
    |h.who| == |h.log| && Beats(h.who, h.log) + Remaining(b) == UnrollAll(h.orders)
  }

  lemma UnrollSnoc(orders: seq<Order>, o: Order)
    ensures UnrollAll(orders + [o]) == UnrollAll(orders) + Unroll(o.isRead, o.cmd.addr, o.cmd.len, o.cmd.id)
  {
    assert (orders + [o])[..|orders|] == orders;
  }

  lemma Assoc<T>(a: seq<T>, b: seq<T>, c: seq<T>, d: seq<T>, e: seq<T>)
    requires b + c == d + e
    ensures (a + b) + c == (a + d) + e
  {
    assert (a + b) + c == a + (b + c);
    assert (a + d) + e == a + (d + e);
  }

  lemma BeatsStep(s: State, o: Offers, h: Hist, i: In)
    requires Ctl(s.burst, s.arb, Room(s), o)
    requires Legal(s, o, i)
    requires |s.rows| >= ROWS
    requires BeatsInOrder(s.burst, h)
    ensures BeatsInOrder(Next(s, i).burst, Observe(h, s, i))
  {
    hide NextArb, NextPort, NextReqs, NextResps, Write, Row, PortData, PortStrobes, WFire, Pop, NextBurst, Remaining,
      Unroll, UnrollAll, Beats, ReadActive, WriteActive, PushTag, RamAddr, RamStrobes, Legal, Ctl;
    var (b, a, room, acc) := (s.burst, s.arb, Room(s), ExtAccept(s));
    BurstStep(s, o, i);
    var more := if ArFire(b, a, room, acc, i) then Unroll(true, i.ar.value.addr, i.ar.value.len, i.ar.value.id)
                else if AwFire(b, a, room, acc, i) then Unroll(false, i.aw.value.addr, i.aw.value.len, i.aw.value.id)
                else [];
    assert UnrollAll(Ordered(h.orders, s, i)) == UnrollAll(h.orders) + more by {
      if ArFire(b, a, room, acc, i) {
        UnrollSnoc(h.orders, Order(true, i.ar.value));
      } else if AwFire(b, a, room, acc, i) {
        UnrollSnoc(h.orders, Order(false, i.aw.value));
      }
    }
    var now := if Push(b, a, room, acc, i) then [Beat(RamAddr(b, a, room, i), PushTag(b, a, room, acc, i))] else [];
    var h' := Observe(h, s, i);
    if Accessed(s, i) {
      SnocAll(h.who, h.log, WhoNow(s, i), AccessNow(s, i));
    }
    assert Beats(h'.who, h'.log) == Beats(h.who, h.log) + now;
    Assoc(Beats(h.who, h.log), now, Remaining(NextBurst(b, a, room, acc, i)), Remaining(b), more);
  }

  ghost predicate WritesCarryBeats(h: Hist) {
    |h.who| == |h.log| && ExtWrites(h.who, h.log) == Payloads(h.wbeats)
  }

  lemma PayloadSnoc(beats: seq<WriteBeat>, w: WriteBeat)
    ensures Payloads(beats + [w]) == Payloads(beats) + [Payload(w.data, w.strobes)]
  {
    assert (beats + [w])[..|beats|] == beats;
  }

  lemma WritesStep(s: State, o: Offers, h: Hist, i: In)
    requires Ctl(s.burst, s.arb, Room(s), o)
    requires Legal(s, o, i)
    requires |s.rows| >= ROWS
    requires WritesCarryBeats(h)
    ensures WritesCarryBeats(Observe(h, s, i))
  {
    hide Row, Pop, Ordered, Payloads, ExtWrites, ReadActive, WriteActive, PushTag, RamAddr, RamStrobes, Ctl, AwFire,
      ArFire;
    var (b, a, room, acc) := (s.burst, s.arb, Room(s), ExtAccept(s));
    WriteBeatIsPushed(b, a, room, o, acc, i);
    if Accessed(s, i) {
      SnocAll(h.who, h.log, WhoNow(s, i), AccessNow(s, i));
    }
    if WFire(b, a, room, acc, i) {
      PayloadSnoc(h.wbeats, i.w.value);
    }
  }

  /** The CPU's accesses are its accepted requests, with their addresses, data and strobes. */
  ghost predicate CallsMade(h: Hist) { |h.who| == |h.log| && CpuAsked(h.who, h.log) == Requests(h.calls) }

  lemma RequestsSnoc(calls: seq<CpuRequest>, c: CpuRequest)
    ensures Requests(calls + [c]) == Requests(calls) + [Asked(c.tag, c.addr, c.data, c.strobes)]
  {
    assert (calls + [c])[..|calls|] == calls;
  }

  lemma CallsStep(s: State, h: Hist, i: In)
    requires CallsMade(h) && |s.rows| >= ROWS
    ensures CallsMade(Observe(h, s, i))
  {
    hide Row, Pop, Ordered, WFire, RamAddr, RamStrobes, PushTag, CpuAsked, Requests, ExtRequest, CpuRequested;
    if Accessed(s, i) {
      SnocAll(h.who, h.log, WhoNow(s, i), AccessNow(s, i));
    }
    RequestsSnoc(h.calls, i.cpu);
  }

  // ---------------------------------------------------------------- responses

  function Zip(tags: seq<Tag>, words: seq<Lanes>): (z: seq<Taken>)
    requires |tags| == |words|
    ensures |z| == |tags|
  {
    if tags == [] then [] else [Taken(tags[0], words[0])] + Zip(tags[1..], words[1..])
  }

  lemma {:induction false} ZipSnoc(tags: seq<Tag>, words: seq<Lanes>, t: Tag, w: Lanes)
    requires |tags| == |words|
    ensures Zip(tags + [t], words + [w]) == Zip(tags, words) + [Taken(t, w)]
  {
    if tags == [] {
    } else {
      ZipSnoc(tags[1..], words[1..], t, w);
      assert (tags + [t])[1..] == tags[1..] + [t] && (words + [w])[1..] == words[1..] + [w];
    }
  }

  /** The words that answer the requests in the FIFO, oldest first. */
  function Answers(s: State): seq<Lanes> {
    s.resps + if s.port.extAck then [s.readQ] else []
  }

  ghost predicate InFlight(s: State, h: Hist) {
    && Counts(s)
    && |h.who| == |h.log|
    && ExtTaken(h.who, h.log) == h.popped + Zip(s.reqs, Answers(s))
    && CpuServed(h.who, h.log) == h.served + (if s.port.cpuAck then [Served(s.port.cpuTag, s.readQ)] else [])
  }

  /** Queues that answer each other stay in step when one pair leaves and one arrives. */
  lemma QueuesMove(reqs: seq<Tag>, words: seq<Lanes>, popped: seq<Taken>, pop: bool, push: bool, t: Tag, w: Lanes)
    requires |reqs| == |words| && (pop ==> reqs != [])
    ensures
      var reqs' := (if pop then reqs[1..] else reqs) + if push then [t] else [];
      var words' := (if pop then words[1..] else words) + if push then [w] else [];
      var popped' := if pop then popped + [Taken(reqs[0], words[0])] else popped;
      popped' + Zip(reqs', words')
      == popped + Zip(reqs, words) + if push then [Taken(t, w)] else []
  {
    var r, v := if pop then reqs[1..] else reqs, if pop then words[1..] else words;
    var p := if pop then popped + [Taken(reqs[0], words[0])] else popped;
    assert p + Zip(r, v) == popped + Zip(reqs, words);
    if push {
      ZipSnoc(r, v, t, w);
      assert p + (Zip(r, v) + [Taken(t, w)]) == (p + Zip(r, v)) + [Taken(t, w)];
    } else {
      assert r + [] == r && v + [] == v;
    }
  }

  /** The response FIFO takes the word on the RAM output; the next word appears there. */
  lemma AnswersStep(s: State, i: In)
    requires Counts(s)
    requires |s.rows| >= ROWS
    ensures |Answers(s)| == |s.reqs|
    ensures Pop(s, i) ==> s.reqs != [] && Answers(s)[0] == s.resps[0]
    ensures Answers(Next(s, i))
            == (if Pop(s, i) then Answers(s)[1..] else Answers(s))
               + if Push(s.burst, s.arb, Room(s), ExtAccept(s), i) then [s.rows[Row(PortAddr(s, i))]] else []
    ensures Next(s, i).reqs
            == (if Pop(s, i) then s.reqs[1..] else s.reqs)
               + if Push(s.burst, s.arb, Room(s), ExtAccept(s), i)
                 then [PushTag(s.burst, s.arb, Room(s), ExtAccept(s), i)] else []
  {
    hide NextBurst, NextArb, PushTag, PortAddr, PortData, PortStrobes, Write, Row, Push;
    assert Push(s.burst, s.arb, Room(s), ExtAccept(s), i) ==> |s.reqs| != DEPTH by { CountsStep(s, i); }
  }

  /** What a clock adds to the accesses of each side. */
  lemma TakenGrows(s: State, h: Hist, i: In)
    requires |s.rows| >= ROWS && |h.who| == |h.log|
    ensures var h' := Observe(h, s, i);
            && |h'.who| == |h'.log|
            && ExtTaken(h'.who, h'.log)
               == ExtTaken(h.who, h.log)
                  + (if Push(s.burst, s.arb, Room(s), ExtAccept(s), i)
                     then [Taken(PushTag(s.burst, s.arb, Room(s), ExtAccept(s), i), s.rows[Row(PortAddr(s, i))])] else [])
            && CpuServed(h'.who, h'.log)
               == CpuServed(h.who, h.log)
                  + (if CpuRequested(i.cpu) && s.port.cpuTurn then [Served(i.cpu.tag, s.rows[Row(PortAddr(s, i))])] else [])
  {
    hide PushTag, PortAddr, PortData, PortStrobes, Row, ExtRequest, ExtTaken, CpuServed, Pop, Ordered, WFire,
      CpuRequested;
    if Accessed(s, i) {
      SnocAll(h.who, h.log, WhoNow(s, i), AccessNow(s, i));
    }
  }

  lemma InFlightStep(s: State, h: Hist, i: In)
    requires InFlight(s, h)
    requires |s.rows| >= ROWS
    ensures InFlight(Next(s, i), Observe(h, s, i))
  {
    hide NextBurst, NextArb, PushTag, PortAddr, PortData, PortStrobes, Write, Row, Push, Zip, Answers, ExtTaken,
      CpuServed, NextReqs, NextResps, Pop, Ordered, WFire, CpuRequested, Counts, Accessed, WhoNow, AccessNow;
    CountsStep(s, i);
    AnswersStep(s, i);
    TakenGrows(s, h, i);
    QueuesMove(s.reqs, Answers(s), h.popped, Pop(s, i), Push(s.burst, s.arb, Room(s), ExtAccept(s), i),
               PushTag(s.burst, s.arb, Room(s), ExtAccept(s), i), s.rows[Row(PortAddr(s, i))]);
  }
}
