/** The CPU's data port: a mux that sends each access to the tightly coupled memory or to the AXI
    bridge, and holds an access to one while the other still owes responses. */
module DataPort {
  import opened Options
  import opened Words
  import opened Ram
  import B = Bridge

  const TCM_SIZE := 65536

  datatype CpuCall = CpuCall(call: B.Call, maintenance: bool, tag: nat)
  datatype TcmAck = TcmAck(data: Lanes, error: bool, tag: nat)

  /** The bus side of the bridge. */
  datatype Bus = Bus(awReady: bool, wReady: bool, arReady: bool, answer: Option<B.Answer>)

  datatype In = In(cpu: Option<CpuCall>, tcmAccept: bool, tcmAck: Option<TcmAck>, bus: Bus)

  /** `tcmOpen` is the memory's side: the tags it has taken and not yet answered. */
  datatype Mux = Mux(tcmLast: bool, pending: nat)
  datatype State = State(mux: Mux, bridge: B.State, tcmOpen: seq<nat>)

  const RESET := State(Mux(false, 0), B.RESET, [])

  // ---------------------------------------------------------------- wires

  predicate ToTcm(tcmBase: Word, c: CpuCall) { tcmBase <= c.call.addr < Wrap(tcmBase + TCM_SIZE) }

  predicate Hold(base: Word, m: Mux, c: CpuCall) { m.pending != 0 && m.tcmLast != ToTcm(base, c) }

  predicate Accepts(base: Word, s: State, i: In) {
    && i.cpu.Some?
    && !Hold(base, s.mux, i.cpu.value)
    && (if ToTcm(base, i.cpu.value) then i.tcmAccept else B.Accept(s.bridge))
  }

  predicate TcmTakes(base: Word, s: State, i: In) { Accepts(base, s, i) && ToTcm(base, i.cpu.value) }

  predicate Acks(s: State, i: In) { if s.mux.tcmLast then i.tcmAck.Some? else i.bus.answer.Some? }

  /** What the bridge sees: a read or write to its side that is not held. */
  function BridgeIn(base: Word, s: State, i: In): B.In {
    var c := if i.cpu.Some? && !ToTcm(base, i.cpu.value) && !Hold(base, s.mux, i.cpu.value)
                && (i.cpu.value.call.rd || Any(i.cpu.value.call.strobes))
             then Some(i.cpu.value.call) else None;
    B.In(c, if i.cpu.Some? then i.cpu.value.tag else 0, i.bus.awReady, i.bus.wReady, i.bus.arReady, i.bus.answer)
  }

  datatype Reply = Reply(tag: nat, data: Lanes, error: bool, fromTcm: bool)

  function ReplyNow(s: State, i: In): Option<Reply> {
    if s.mux.tcmLast then
      if i.tcmAck.Some? then Some(Reply(i.tcmAck.value.tag, i.tcmAck.value.data, i.tcmAck.value.error, true)) else None
    else if i.bus.answer.Some? then
      Some(Reply(if s.bridge.tags != [] then s.bridge.tags[0] else 0, i.bus.answer.value.data, i.bus.answer.value.error, false))
    else None
  }

  // ---------------------------------------------------------------- next state

  /** The count is a register of five bits. */
  function NextMux(base: Word, s: State, i: In): Mux {
    var accepts, acks := Accepts(base, s, i), Acks(s, i);
    Mux(if accepts then ToTcm(base, i.cpu.value) else s.mux.tcmLast,
        if accepts && !acks then (s.mux.pending + 1) % 32
        else if !accepts && acks then (s.mux.pending + 31) % 32
        else s.mux.pending)
  }

  function Next(base: Word, s: State, i: In): State {
    State(NextMux(base, s, i), B.Next(s.bridge, BridgeIn(base, s, i)),
          (if i.tcmAck.Some? && s.tcmOpen != [] then s.tcmOpen[1..] else s.tcmOpen)
          + if TcmTakes(base, s, i) then [i.cpu.value.tag] else [])
  }

  /** The memory answers each access it has taken once, in order, under its tag, and keeps fewer
      than 31 open; the bus answers the open transaction; and cache control goes to the memory only. */
  predicate Legal(base: Word, s: State, h: Hist, i: In) {
    && (i.cpu.Some? ==>
          var c := i.cpu.value;
          if c.maintenance then ToTcm(base, c) else c.call.rd || Any(c.call.strobes))
    && (i.tcmAck.Some? ==> s.tcmOpen != [] && i.tcmAck.value.tag == s.tcmOpen[0])
    && (i.tcmAccept ==> |s.tcmOpen| < 31)
    && B.Legal(s.bridge, h.bridge, BridgeIn(base, s, i))
  }

  // ---------------------------------------------------------------- history

  datatype Hist = Hist(calls: seq<CpuCall>, replies: seq<Reply>, bridge: B.Hist)

  function Observe(base: Word, h: Hist, s: State, i: In): Hist {
    Hist(if Accepts(base, s, i) then h.calls + [i.cpu.value] else h.calls,
         match ReplyNow(s, i) case None => h.replies case Some(r) => h.replies + [r],
         B.Observe(h.bridge, s.bridge, BridgeIn(base, s, i)))
  }

  datatype System = System(s: State, h: Hist)

  function After(base: Word, ins: seq<In>): Option<System> {
    if ins == [] then Some(System(RESET, Hist([], [], B.NOTHING)))
    else
      match After(base, ins[..|ins| - 1])
      case None => None
      case Some(System(s, h)) =>
        var i := ins[|ins| - 1];
        if Legal(base, s, h, i) then Some(System(Next(base, s, i), Observe(base, h, s, i))) else None
  }

  // ---------------------------------------------------------------- invariants

  /** Every open access sits on the port last selected, and the count counts them. */
  predicate OnePort(s: State) {
    && s.mux.pending == |s.tcmOpen| + |s.bridge.tags| < 32
    && (s.tcmOpen != [] ==> s.mux.tcmLast)
    && (s.bridge.tags != [] ==> !s.mux.tcmLast)
  }

  lemma OnePortStep(base: Word, s: State, h: Hist, i: In)
    requires OnePort(s) && B.Queues(s.bridge) && Legal(base, s, h, i)
    ensures OnePort(Next(base, s, i))
    ensures s.mux.tcmLast ==> i.bus.answer.None?
    ensures !s.mux.tcmLast ==> i.tcmAck.None?
  {
    hide B.Complete;
  }

  /** The calls still open, oldest first, are those whose tags the ports hold. */
  ghost predicate Open(base: Word, s: State, h: Hist) {
    && TagsOpen(h.calls, |h.replies|, s.tcmOpen + s.bridge.tags)
    && OnPort(base, h.calls, |h.replies|, s.mux.tcmLast)
  }

  ghost predicate TagsOpen(calls: seq<CpuCall>, n: nat, open: seq<nat>) {
    && |calls| == n + |open|
    && forall k {:trigger open[k]} :: 0 <= k < |open| ==> calls[n + k].tag == open[k]
  }

  ghost predicate OnPort(base: Word, calls: seq<CpuCall>, n: nat, tcm: bool) {
    forall k {:trigger calls[k]} :: n <= k < |calls| ==> ToTcm(base, calls[k]) == tcm
  }

  /** A reply carries the tag of the call it answers and comes from the port that call went to. */
  ghost predicate Answered(base: Word, h: Hist) {
    && |h.replies| <= |h.calls|
    && forall k {:trigger h.replies[k]} :: 0 <= k < |h.replies| ==>
         h.replies[k].tag == h.calls[k].tag && (h.replies[k].fromTcm <==> ToTcm(base, h.calls[k]))
  }

  lemma OpenTags(base: Word, s: State, i: In)
    requires OnePort(s) && B.Queues(s.bridge)
    requires i.tcmAck.Some? ==> s.tcmOpen != []
    requires i.bus.answer.Some? ==> s.bridge.pending
    requires i.cpu.Some? && !i.cpu.value.maintenance ==> i.cpu.value.call.rd || Any(i.cpu.value.call.strobes)
    requires i.cpu.Some? && i.cpu.value.maintenance ==> ToTcm(base, i.cpu.value)
    ensures var n := Next(base, s, i);
            n.tcmOpen + n.bridge.tags
            == (if Acks(s, i) then (s.tcmOpen + s.bridge.tags)[1..] else s.tcmOpen + s.bridge.tags)
               + if Accepts(base, s, i) then [i.cpu.value.tag] else []
    ensures Acks(s, i) ==> s.tcmOpen + s.bridge.tags != []
  {
    hide B.Complete, ToTcm;
  }

  lemma TagsMove(calls: seq<CpuCall>, n: nat, open: seq<nat>, ack: bool, more: seq<CpuCall>)
    requires TagsOpen(calls, n, open) && (ack ==> open != []) && |more| <= 1
    ensures TagsOpen(calls + more, if ack then n + 1 else n,
                     (if ack then open[1..] else open) + if more == [] then [] else [more[0].tag])
  {
  }

  lemma PortsMove(base: Word, calls: seq<CpuCall>, n: nat, ack: bool, tcm: bool, more: seq<CpuCall>)
    requires OnPort(base, calls, n, tcm) && |more| <= 1
    requires more != [] && n < |calls| ==> ToTcm(base, more[0]) == tcm
    ensures OnPort(base, calls + more, if ack then n + 1 else n, if more == [] then tcm else ToTcm(base, more[0]))
  {
    hide ToTcm;
  }

  lemma OpenStep(base: Word, s: State, h: Hist, i: In)
    requires OnePort(s) && B.Queues(s.bridge) && Legal(base, s, h, i) && Open(base, s, h)
    ensures Open(base, Next(base, s, i), Observe(base, h, s, i))
  {
    hide ToTcm, B.Next, B.Observe, B.Accept, B.Queues, TagsOpen, OnPort;
    OpenTags(base, s, i);
    OnePortStep(base, s, h, i);
    assert ReplyNow(s, i).Some? <==> Acks(s, i);
    assert |h.calls| == |h.replies| + s.mux.pending by { OpenCount(base, s, h); }
    assert Accepts(base, s, i) && s.mux.pending != 0 ==> ToTcm(base, i.cpu.value) == s.mux.tcmLast;
    var more := if Accepts(base, s, i) then [i.cpu.value] else [];
    hide Accepts, Acks, ReplyNow;
    TagsMove(h.calls, |h.replies|, s.tcmOpen + s.bridge.tags, Acks(s, i), more);
    PortsMove(base, h.calls, |h.replies|, Acks(s, i), s.mux.tcmLast, more);
    assert Observe(base, h, s, i).calls == h.calls + more;
  }

  lemma OpenCount(base: Word, s: State, h: Hist)
    requires OnePort(s) && Open(base, s, h)
    ensures |h.calls| == |h.replies| + s.mux.pending
    ensures s.tcmOpen + s.bridge.tags != [] ==>
              |h.replies| < |h.calls| && h.calls[|h.replies|].tag == (s.tcmOpen + s.bridge.tags)[0]
              && ToTcm(base, h.calls[|h.replies|]) == s.mux.tcmLast
  {
    hide ToTcm;
    var open := s.tcmOpen + s.bridge.tags;
    if open != [] {
      assert h.calls[|h.replies| + 0].tag == open[0];
    }
  }

  lemma AnsweredStep(base: Word, s: State, h: Hist, i: In)
    requires OnePort(s) && B.Queues(s.bridge) && Legal(base, s, h, i) && Open(base, s, h) && Answered(base, h)
    ensures Answered(base, Observe(base, h, s, i))
  {
    hide ToTcm, B.Next, B.Observe, B.Accept, Accepts, Open, B.Queues;
    OnePortStep(base, s, h, i);
    OpenTags(base, s, i);
    OpenCount(base, s, h);
    var h2 := Observe(base, h, s, i);
    forall k | 0 <= k < |h2.replies|
      ensures h2.replies[k].tag == h2.calls[k].tag && (h2.replies[k].fromTcm <==> ToTcm(base, h2.calls[k]))
    {
      assert k < |h.calls| && h2.calls[k] == h.calls[k];
      if k < |h.replies| {
        assert h2.replies[k] == h.replies[k];
      }
    }
  }

  function ExtCalls(base: Word, calls: seq<CpuCall>): seq<B.Call> {
    if calls == [] then []
    else
      var n := |calls| - 1;
      ExtCalls(base, calls[..n]) + if ToTcm(base, calls[n]) then [] else [calls[n].call]
  }

  function ExtReplies(replies: seq<Reply>): nat {
    if replies == [] then 0
    else
      var n := |replies| - 1;
      ExtReplies(replies[..n]) + if replies[n].fromTcm then 0 else 1
  }

  /** The bridge is given the external calls in order, and replies to them one by one. */
  ghost predicate External(base: Word, s: State, h: Hist) {
    && h.bridge.calls == ExtCalls(base, h.calls)
    && ExtReplies(h.replies) + |s.bridge.tags| == |h.bridge.calls|
  }

  lemma ExtSnoc(base: Word, calls: seq<CpuCall>, c: CpuCall, replies: seq<Reply>, r: Reply)
    ensures ExtCalls(base, calls + [c]) == ExtCalls(base, calls) + if ToTcm(base, c) then [] else [c.call]
    ensures ExtReplies(replies + [r]) == ExtReplies(replies) + if r.fromTcm then 0 else 1
  {
    hide ToTcm;
    assert (calls + [c])[..|calls|] == calls && (replies + [r])[..|replies|] == replies;
  }

  /** The bridge takes exactly the accepted calls to its side, and drops a tag with each answer. */
  lemma BridgeTakes(base: Word, s: State, h: Hist, i: In)
    requires OnePort(s) && B.Queues(s.bridge) && Legal(base, s, h, i)
    ensures var takes := Accepts(base, s, i) && !ToTcm(base, i.cpu.value);
            && B.Observe(h.bridge, s.bridge, BridgeIn(base, s, i)).calls
               == h.bridge.calls + (if takes then [i.cpu.value.call] else [])
            && |B.Next(s.bridge, BridgeIn(base, s, i)).tags|
               == |s.bridge.tags| + (if takes then 1 else 0) - (if i.bus.answer.Some? then 1 else 0)
  {
    hide ToTcm, B.Complete, B.BusAddr, B.AwFire, B.WFire, B.ArFire, B.AwValid, B.WValid;
  }

  lemma ExternalStep(base: Word, s: State, h: Hist, i: In)
    requires OnePort(s) && B.Queues(s.bridge) && Legal(base, s, h, i) && External(base, s, h)
    ensures External(base, Next(base, s, i), Observe(base, h, s, i))
  {
    hide ToTcm, Hold, B.Accept, B.Next, B.Observe, B.Queues, BridgeIn, ExtCalls, ExtReplies;
    OnePortStep(base, s, h, i);
    BridgeTakes(base, s, h, i);
    var none := CpuCall(B.NO_CALL, false, 0);
    ExtSnoc(base, h.calls, if Accepts(base, s, i) then i.cpu.value else none,
            h.replies, if ReplyNow(s, i).Some? then ReplyNow(s, i).value else Reply(0, ZERO, false, false));
  }

  // ---------------------------------------------------------------- main results

  lemma {:induction false} Always(base: Word, ins: seq<In>)
    requires After(base, ins).Some?
    ensures var System(s, h) := After(base, ins).value;
            && OnePort(s) && B.Queues(s.bridge) && Open(base, s, h) && Answered(base, h) && External(base, s, h)
            && B.Lined(s.bridge, h.bridge) && B.Handshakes(s.bridge, h.bridge)
  {
    if ins != [] {
      hide OnePort, Open, Answered, External, Next, Observe, B.Lined, B.Handshakes, B.Queues;
      var n := |ins| - 1;
      Always(base, ins[..n]);
      var System(s, h) := After(base, ins[..n]).value;
      OnePortStep(base, s, h, ins[n]);
      OpenStep(base, s, h, ins[n]);
      AnsweredStep(base, s, h, ins[n]);
      ExternalStep(base, s, h, ins[n]);
      BridgeStep(base, s, h, ins[n]);
    }
  }

  lemma BridgeStep(base: Word, s: State, h: Hist, i: In)
    requires B.Queues(s.bridge) && B.Lined(s.bridge, h.bridge) && B.Handshakes(s.bridge, h.bridge)
    requires Legal(base, s, h, i)
    ensures var n, h2 := Next(base, s, i), Observe(base, h, s, i);
            B.Queues(n.bridge) && B.Lined(n.bridge, h2.bridge) && B.Handshakes(n.bridge, h2.bridge)
  {
    hide B.Lined, B.Handshakes, B.Queues, B.Next, B.Observe;
    var bi := BridgeIn(base, s, i);
    B.QueuesStep(s.bridge, bi);
    B.LinedStep(s.bridge, h.bridge, bi);
    B.HandshakesStep(s.bridge, h.bridge, bi);
  }

  /** Replies reach the CPU in the order of its calls, each under the tag of its call and from the
      port its address selects. */
  lemma RepliesInCallOrder(base: Word, ins: seq<In>, k: nat)
    requires After(base, ins).Some?
    requires k < |After(base, ins).value.h.replies|
    ensures var h := After(base, ins).value.h;
            && |h.replies| <= |h.calls|
            && h.replies[k].tag == h.calls[k].tag
            && (h.replies[k].fromTcm <==> ToTcm(base, h.calls[k]))
  {
    Always(base, ins);
  }

  /** All open calls are on the port last selected; the five-bit count is their number; and a
      port that is not selected never answers, so no response is missed. */
  lemma OpenCallsShareOnePort(base: Word, ins: seq<In>, i: In)
    requires After(base, ins).Some?
    requires var System(s, h) := After(base, ins).value; Legal(base, s, h, i)
    ensures var System(s, h) := After(base, ins).value;
            && s.mux.pending == |h.calls| - |h.replies| < 32
            && (forall k :: |h.replies| <= k < |h.calls| ==> ToTcm(base, h.calls[k]) == s.mux.tcmLast)
            && (i.tcmAck.Some? ==> s.mux.tcmLast)
            && (i.bus.answer.Some? ==> !s.mux.tcmLast)
  {
    hide ToTcm;
    Always(base, ins);
    var System(s, h) := After(base, ins).value;
    OnePortStep(base, s, h, i);
    OpenCount(base, s, h);
  }

  /** The bridge: tags outnumber queued requests by the open transaction; every external call is
      started in order; a write has exactly one address and one data handshake, with its own
      address, data and strobes, and at most one of them ahead of the other; a read has one. */
  lemma EachCallHandshakesOnce(base: Word, ins: seq<In>)
    requires After(base, ins).Some?
    ensures var System(s, h) := After(base, ins).value;
            var (b, bh) := (s.bridge, h.bridge);
            && |b.tags| == |b.reqs| + (if b.pending then 1 else 0)
            && ExtCalls(base, h.calls) == bh.done + b.reqs
            && ExtReplies(h.replies) == |bh.done| - (if b.pending then 1 else 0)
            && bh.ars == B.Ars(bh.done)
            && !(b.awInhibit && b.wInhibit)
            && (b.awInhibit || b.wInhibit ==> b.reqs != [])
            && bh.aws == B.Aws(bh.done) + (if b.awInhibit then [B.BusAddr(b.reqs[0])] else [])
            && bh.ws == B.Ws(bh.done) + (if b.wInhibit then [B.Payload(b.reqs[0].data, b.reqs[0].strobes)] else [])
  {
    Always(base, ins);
  }

  /** Why cache control must stay off the external side: the mux counts every accepted call, but the
      bridge will owe a response for it exactly when it is a read or a write. */
  lemma {:induction false} CountedButNotOwed(base: Word, ins: seq<In>, i: In)
    requires After(base, ins).Some?
    requires var s := After(base, ins).value.s;
             Accepts(base, s, i) && !ToTcm(base, i.cpu.value) && !s.mux.tcmLast && i.bus.answer.None?
    ensures var s := After(base, ins).value.s;
            && Next(base, s, i).mux.pending == s.mux.pending + 1
            && (|Next(base, s, i).bridge.tags| == |s.bridge.tags| + 1
                <==> i.cpu.value.call.rd || Any(i.cpu.value.call.strobes))
  {
    hide ToTcm, After, B.Lined, B.Handshakes, Open, Answered, External, B.Complete;
    Always(base, ins);
  }

  // ---------------------------------------------------------------- registers

  /** The mux and the bridge as registers; `tcmOpen` is left to the memory. */
  class Port {
    const base: Word
    const bridge: B.AxiBridge
    var mux: Mux

    ghost predicate Valid()
      reads this, bridge, bridge.reqs, bridge.reqs.ram, bridge.tags, bridge.tags.ram
    { bridge.Valid() }

    ghost function View(tcmOpen: seq<nat>): (s: State)
      reads this, bridge, bridge.reqs, bridge.reqs.ram, bridge.tags, bridge.tags.ram
      requires Valid()
    {
      State(mux, bridge.View(), tcmOpen)
    }

    constructor (base: Word)
      ensures Valid() && View([]) == RESET && this.base == base
    {
      this.base := base;
      mux := Mux(false, 0);
      bridge := new B.AxiBridge();
    }

    /** One clock edge. */
    method Step(i: In, ghost tcmOpen: seq<nat>) returns (accepted: bool)
      requires Valid()
      modifies this, bridge, bridge.reqs, bridge.reqs.ram, bridge.tags, bridge.tags.ram
      ensures Valid()
      ensures accepted == Accepts(base, old(View(tcmOpen)), i)
      ensures var n := Next(base, old(View(tcmOpen)), i); View(n.tcmOpen) == n
    {
      hide B.Next, ToTcm, B.AxiBridge.Valid, B.AxiBridge.View;
      var toTcm := i.cpu.Some? && ToTcm(base, i.cpu.value);
      var hold := mux.pending != 0 && mux.tcmLast != toTcm;
      var room := bridge.Room();
      accepted := i.cpu.Some? && !hold && (if toTcm then i.tcmAccept else room);
      var acked := if mux.tcmLast then i.tcmAck.Some? else i.bus.answer.Some?;
      var call := if i.cpu.Some? && !toTcm && !hold && (i.cpu.value.call.rd || Any(i.cpu.value.call.strobes))
                  then Some(i.cpu.value.call) else None;
      bridge.Step(B.In(call, if i.cpu.Some? then i.cpu.value.tag else 0,
                       i.bus.awReady, i.bus.wReady, i.bus.arReady, i.bus.answer));
      var last := if accepted then toTcm else mux.tcmLast;
      var pending := mux.pending;
      if accepted && !acked {
        pending := (pending + 1) % 32;
      } else if !accepted && acked {
        pending := (pending + 31) % 32;
      }
      mux := Mux(last, pending);
    }
  }
}
