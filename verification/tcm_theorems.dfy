/** What the memory port keeps over every run of a master that follows the AXI rules and any
    CPU traffic. */
module TcmTheorems {
  import opened Options
  import opened Words
  import opened Ram
  import opened TcmModel
  import opened TcmProofs

  ghost predicate Inv(rows: seq<Lanes>, x: System) {
    && Ctl(x.s.burst, x.s.arb, Room(x.s), x.o)
    && Memory(rows, x.s, x.h)
    && BeatsInOrder(x.s.burst, x.h)
    && WritesCarryBeats(x.h)
    && CallsMade(x.h)
    && InFlight(x.s, x.h)
  }

  lemma {:induction false} Always(rows: seq<Lanes>, ins: seq<In>)
    requires |rows| >= ROWS
    requires After(rows, ins).Some?
    ensures Inv(rows, After(rows, ins).value)
  {
    if ins == [] {
      assert Sequential(rows, []);
    } else {
      var n := |ins| - 1;
      Always(rows, ins[..n]);
      var System(s, o, h) := After(rows, ins[..n]).value;
      StepKeeps(rows, s, o, h, ins[n]);
    }
  }

  lemma StepKeeps(rows: seq<Lanes>, s: State, o: Offers, h: Hist, i: In)
    requires Inv(rows, System(s, o, h))
    requires Legal(s, o, i)
    ensures Inv(rows, System(Next(s, i), NextOffers(s, i), Observe(h, s, i)))
  {
    hide Next, NextOffers, Observe, Ctl, Memory, BeatsInOrder, WritesCarryBeats, CallsMade, Legal;
    assert |s.rows| >= ROWS && |s.reqs| <= DEPTH by { Sizes(rows, s, o, h); }
    CtlStep(s, o, i);
    MemoryStep(rows, s, h, i);
    BeatsStep(s, o, h, i);
    WritesStep(s, o, h, i);
    CallsStep(s, h, i);
    InFlightStep(s, h, i);
  }

  lemma Sizes(rows: seq<Lanes>, s: State, o: Offers, h: Hist)
    requires Inv(rows, System(s, o, h))
    ensures |s.rows| >= ROWS && |s.reqs| <= DEPTH
  {
  }

  // ---------------------------------------------------------------- main results

  /** A read and a write are never presented to the RAM in the same clock. */
  lemma NeverReadAndWrite(rows: seq<Lanes>, ins: seq<In>, i: In)
    requires |rows| >= ROWS && After(rows, ins).Some?
    ensures var s := After(rows, ins).value.s;
            !(WriteActive(s.burst, s.arb, Room(s), i) && ReadActive(s.burst, s.arb, Room(s), i))
  {
    Always(rows, ins);
    var System(s, o, _) := After(rows, ins).value;
    Exclusive(s.burst, s.arb, Room(s), o, i);
  }

  /** The request FIFO holds one entry for each word in the response FIFO and one for the access in
      the RAM, so the response FIFO, whose accept output is not connected, always has room. */
  lemma {:induction false} ResponsesNeverOverflow(rows: seq<Lanes>, ins: seq<In>)
    requires |rows| >= ROWS && After(rows, ins).Some?
    ensures var s := After(rows, ins).value.s;
            && |s.reqs| == |s.resps| + (if s.port.extAck then 1 else 0)
            && |s.reqs| <= DEPTH
            && (s.port.extAck ==> |s.resps| < DEPTH)
  {
    Always(rows, ins);
  }

  lemma {:induction false} UnrollAt(isRead: bool, addr: Word, len: Len, id: nat, k: nat)
    requires k <= len
    ensures |Unroll(isRead, addr, len, id)| == len + 1
    ensures Unroll(isRead, addr, len, id)[k] == Beat((addr + 4 * k) % W32, Tag(isRead, k == len, id))
    decreases len
  {
    if len > 0 {
      UnrollAt(isRead, NextAddr(addr), len - 1, id, if k > 0 then k - 1 else 0);
      if k > 0 {
        Step4(addr, k - 1);
      }
    }
  }

  lemma Step4(addr: Word, k: nat)
    ensures (NextAddr(addr) + 4 * k) % W32 == (addr + 4 * (k + 1)) % W32
  {
    if addr + 4 >= W32 {
      assert NextAddr(addr) == addr + 4 - W32;
      ModShift(NextAddr(addr) + 4 * k, 1, W32);
    }
  }

  /** The RAM accesses made for the master are the beats of its accepted bursts, in order: a read
      of ARLEN + 1 beats and a write of AWLEN + 1 beats at consecutive words; all of them once
      the sequencer is idle. Each write access carries the write beat that was taken for it. */
  lemma BurstsAreServedInOrder(rows: seq<Lanes>, ins: seq<In>)
    requires |rows| >= ROWS && After(rows, ins).Some?
    ensures var System(s, _, h) := After(rows, ins).value;
            && |h.who| == |h.log|
            && Beats(h.who, h.log) <= UnrollAll(h.orders)
            && (!s.burst.rd && !s.burst.wr ==> Beats(h.who, h.log) == UnrollAll(h.orders))
            && ExtWrites(h.who, h.log) == Payloads(h.wbeats)
  {
    Always(rows, ins);
    var System(s, o, h) := After(rows, ins).value;
    var done, rest := Beats(h.who, h.log), Remaining(s.burst);
    assert done + rest == UnrollAll(h.orders);
    assert !s.burst.rd && !s.burst.wr ==> done + rest == done;
  }

  /** The CPU and the master see one memory: every access reads the word that the accesses before
      it left; the CPU's accesses are its accepted requests in order; and each is answered one clock
      later under its tag. */
  lemma {:induction false} OneMemoryForBoth(rows: seq<Lanes>, ins: seq<In>)
    requires |rows| >= ROWS && After(rows, ins).Some?
    ensures var System(s, _, h) := After(rows, ins).value;
            && |h.who| == |h.log|
            && Sequential(rows, h.log)
            && s.rows == Replay(rows, h.log)
            && CpuAsked(h.who, h.log) == Requests(h.calls)
            && CpuServed(h.who, h.log) == h.served + if s.port.cpuAck then [Served(s.port.cpuTag, s.readQ)] else []
  {
    Always(rows, ins);
  }

  // ---------------------------------------------------------------- responses

  datatype Kind = ReadBeat(id: nat, last: bool) | WriteDone(id: nat)

  function KindOf(t: Tag): seq<Kind> {
    if t.isRead then [ReadBeat(t.id, t.last)] else if t.last then [WriteDone(t.id)] else []
  }

  function Kinds(replies: seq<Reply>): seq<Kind> {
    if replies == [] then []
    else
      var n := |replies| - 1;
      Kinds(replies[..n]) + match replies[n] case R(id, last, _) => [ReadBeat(id, last)] case B(id) => [WriteDone(id)]
  }

  function TagKinds(t: seq<Taken>): seq<Kind> {
    if t == [] then [] else TagKinds(t[..|t| - 1]) + KindOf(t[|t| - 1].tag)
  }

  function BeatKinds(beats: seq<Beat>): seq<Kind> {
    if beats == [] then [] else BeatKinds(beats[..|beats| - 1]) + KindOf(beats[|beats| - 1].tag)
  }

  /** What the master is owed for a command: a read its beats, the last one marked; a write one
      response. */
  function Owed(o: Order): seq<Kind> {
    if o.isRead then OwedBeats(o.cmd.len, o.cmd.id) else [WriteDone(o.cmd.id)]
  }

  function OwedBeats(len: nat, id: nat): (k: seq<Kind>)
    ensures |k| == len + 1
  {
    if len == 0 then [ReadBeat(id, true)] else [ReadBeat(id, false)] + OwedBeats(len - 1, id)
  }

  function OwedAll(orders: seq<Order>): seq<Kind> {
    if orders == [] then [] else OwedAll(orders[..|orders| - 1]) + Owed(orders[|orders| - 1])
  }

  lemma {:induction false} KindsOfVisible(t: seq<Taken>)
    ensures Kinds(Visible(t)) == TagKinds(t)
  {
    if t != [] {
      var n := |t| - 1;
      KindsOfVisible(t[..n]);
      var v := Visible(t[..n]);
      if t[n].tag.isRead || t[n].tag.last {
        assert Visible(t)[..|v|] == v;
      } else {
        assert Visible(t) == v;
      }
    }
  }

  lemma {:induction false} KindsOfLog(who: seq<Who>, log: seq<Access>)
    requires |who| == |log|
    ensures TagKinds(ExtTaken(who, log)) == BeatKinds(Beats(who, log))
  {
    if log != [] {
      var n := |log| - 1;
      KindsOfLog(who[..n], log[..n]);
      if who[n].Ext? {
        assert ExtTaken(who, log)[..|ExtTaken(who[..n], log[..n])|] == ExtTaken(who[..n], log[..n]);
        assert Beats(who, log)[..|Beats(who[..n], log[..n])|] == Beats(who[..n], log[..n]);
      } else {
        assert ExtTaken(who, log) == ExtTaken(who[..n], log[..n]) && Beats(who, log) == Beats(who[..n], log[..n]);
      }
    }
  }

  lemma {:induction false} TagKindsConcat(a: seq<Taken>, b: seq<Taken>)
    ensures TagKinds(a + b) == TagKinds(a) + TagKinds(b)
  {
    if b == [] {
      assert a + b == a;
    } else {
      var n := |b| - 1;
      TagKindsConcat(a, b[..n]);
      assert (a + b)[..|a + b| - 1] == a + b[..n];
      assert (TagKinds(a) + TagKinds(b[..n])) + KindOf(b[n].tag) == TagKinds(a) + (TagKinds(b[..n]) + KindOf(b[n].tag));
    }
  }

  lemma {:induction false} BeatKindsConcat(a: seq<Beat>, b: seq<Beat>)
    ensures BeatKinds(a + b) == BeatKinds(a) + BeatKinds(b)
  {
    if b == [] {
      assert a + b == a;
    } else {
      var n := |b| - 1;
      BeatKindsConcat(a, b[..n]);
      assert (a + b)[..|a + b| - 1] == a + b[..n];
      assert (BeatKinds(a) + BeatKinds(b[..n])) + KindOf(b[n].tag)
          == BeatKinds(a) + (BeatKinds(b[..n]) + KindOf(b[n].tag));
    }
  }

  lemma {:induction false} BurstIsOwed(isRead: bool, addr: Word, len: Len, id: nat)
    ensures BeatKinds(Unroll(isRead, addr, len, id)) == if isRead then OwedBeats(len, id) else [WriteDone(id)]
    decreases len
  {
    var head := [Beat(addr, Tag(isRead, len == 0, id))];
    assert BeatKinds(head) == KindOf(head[0].tag) by { assert head[..0] == []; }
    if len == 0 {
      assert Unroll(isRead, addr, len, id) == head;
    } else {
      BurstIsOwed(isRead, NextAddr(addr), len - 1, id);
      BeatKindsConcat(head, Unroll(isRead, NextAddr(addr), len - 1, id));
    }
  }

  lemma {:induction false} OrdersAreOwed(orders: seq<Order>)
    ensures BeatKinds(UnrollAll(orders)) == OwedAll(orders)
  {
    if orders != [] {
      var n := |orders| - 1;
      OrdersAreOwed(orders[..n]);
      var o := orders[n];
      BurstIsOwed(o.isRead, o.cmd.addr, o.cmd.len, o.cmd.id);
      BeatKindsConcat(UnrollAll(orders[..n]), Unroll(o.isRead, o.cmd.addr, o.cmd.len, o.cmd.id));
    }
  }

  /** The responses the master has taken begin the responses it is owed, in command order, each
      read beat with its burst's identifier and RLAST on the last beat only; and they are all of
      them once no burst and no request is open. */
  lemma RepliesAreOwed(rows: seq<Lanes>, ins: seq<In>)
    requires |rows| >= ROWS && After(rows, ins).Some?
    ensures var System(s, _, h) := After(rows, ins).value;
            && Kinds(Visible(h.popped)) <= OwedAll(h.orders)
            && (!s.burst.rd && !s.burst.wr && s.reqs == [] ==> Kinds(Visible(h.popped)) == OwedAll(h.orders))
  {
    hide After, Ctl, Memory, WritesCarryBeats, Counts, Answers, Zip, TagKinds, BeatKinds, Kinds, Visible, OwedAll,
      UnrollAll, Beats, ExtTaken, CpuServed;
    Always(rows, ins);
    var System(s, _, h) := After(rows, ins).value;
    assert |s.reqs| == |Answers(s)| by { AnswersMatch(s, h); }
    var open, rest := Zip(s.reqs, Answers(s)), Remaining(s.burst);
    KindsOfVisible(h.popped);
    TagKindsConcat(h.popped, open);
    KindsOfLog(h.who, h.log);
    BeatKindsConcat(Beats(h.who, h.log), rest);
    OrdersAreOwed(h.orders);
    assert OwedAll(h.orders) == (TagKinds(h.popped) + TagKinds(open)) + BeatKinds(rest);
    assert OwedAll(h.orders) == TagKinds(h.popped) + (TagKinds(open) + BeatKinds(rest));
    NothingOpen(open, rest);
  }

  lemma AnswersMatch(s: State, h: Hist)
    requires InFlight(s, h)
    ensures |s.reqs| == |Answers(s)|
  {
  }

  lemma NothingOpen(open: seq<Taken>, rest: seq<Beat>)
    ensures open == [] && rest == [] ==> TagKinds(open) + BeatKinds(rest) == []
  {
  }

  lemma {:induction false} VisibleConcat(a: seq<Taken>, b: seq<Taken>)
    ensures Visible(a + b) == Visible(a) + Visible(b)
  {
    if b == [] {
      assert a + b == a;
    } else {
      var n := |b| - 1;
      VisibleConcat(a, b[..n]);
      assert (a + b)[..|a + b| - 1] == a + b[..n];
      var shown := if b[n].tag.isRead then [R(b[n].tag.id, b[n].tag.last, b[n].data)]
                   else if b[n].tag.last then [B(b[n].tag.id)] else [];
      assert (Visible(a) + Visible(b[..n])) + shown == Visible(a) + (Visible(b[..n]) + shown);
    }
  }

  /** The data of the read beats is what the RAM held at their access: the responses taken begin
      the responses that the log of accesses gives. */
  lemma RepliesCarryTheirWord(rows: seq<Lanes>, ins: seq<In>)
    requires |rows| >= ROWS && After(rows, ins).Some?
    ensures var System(_, _, h) := After(rows, ins).value;
            && |h.who| == |h.log|
            && Visible(h.popped) <= Visible(ExtTaken(h.who, h.log))
  {
    Always(rows, ins);
    var System(s, _, h) := After(rows, ins).value;
    VisibleConcat(h.popped, Zip(s.reqs, Answers(s)));
  }

  /** Without the rule on strobes: a write beat is taken, yet no write is made or counted for it,
      exactly when its strobes are all clear. */
  lemma ZeroStrobeIsNotCounted(rows: seq<Lanes>, ins: seq<In>, i: In)
    requires |rows| >= ROWS && After(rows, ins).Some?
    requires var s := After(rows, ins).value.s; WFire(s.burst, s.arb, Room(s), ExtAccept(s), i)
    ensures var s := After(rows, ins).value.s;
            Push(s.burst, s.arb, Room(s), ExtAccept(s), i) <==> Any(i.w.value.strobes)
  {
    NeverReadAndWrite(rows, ins, i);
  }
}
