/** The AXI port of the tightly coupled memory: a sequencer that turns read and write bursts into
    single RAM accesses, request and response FIFOs, and the RAM port it shares with the CPU. */
module TcmModel {
  import opened Options
  import opened Words
  import opened Fifo
  import opened Ram

  const DEPTH := 4

  datatype Command = Command(addr: Word, id: nat, len: Len)
  datatype WriteBeat = WriteBeat(data: Lanes, strobes: Strobes, last: bool)
  datatype CpuRequest = CpuRequest(rd: bool, strobes: Strobes, maintenance: bool, addr: Word, data: Lanes, tag: nat)

  datatype In = In(ar: Option<Command>, aw: Option<Command>, w: Option<WriteBeat>,
                   rReady: bool, bReady: bool, cpu: CpuRequest)

  // ---------------------------------------------------------------- registers

  datatype Burst = Burst(rd: bool, wr: bool, addr: Word, len: Len, id: nat)
  datatype Arb = Arb(prio: bool, holdRd: bool, holdWr: bool)
  datatype Tag = Tag(isRead: bool, last: bool, id: nat)
  datatype Port = Port(cpuTurn: bool, extAck: bool, cpuAck: bool, cpuTag: nat)

  datatype State = State(burst: Burst, arb: Arb, reqs: seq<Tag>, resps: seq<Lanes>,
                         port: Port, rows: seq<Lanes>, readQ: Lanes)

  function Reset(rows: seq<Lanes>): State {
    State(Burst(false, false, 0, 0, 0), Arb(false, false, false), [], [], Port(true, false, false, 0), rows, ZERO)
  }

  // ---------------------------------------------------------------- wires

  predicate Room(s: State) { |s.reqs| != DEPTH }
  predicate ExtAccept(s: State) { !s.port.cpuTurn }

  predicate WritePrio(a: Arb) { (a.prio && !a.holdRd) || a.holdWr }
  predicate ReadPrio(a: Arb) { (!a.prio && !a.holdWr) || a.holdRd }

  predicate WriteActive(b: Burst, a: Arb, room: bool, i: In) {
    (i.aw.Some? || b.wr) && !b.rd && room && (WritePrio(a) || b.wr || i.ar.None?)
  }

  predicate ReadActive(b: Burst, a: Arb, room: bool, i: In) {
    (i.ar.Some? || b.rd) && !b.wr && room && (ReadPrio(a) || b.rd || i.aw.None?)
  }

  predicate ArFire(b: Burst, a: Arb, room: bool, accept: bool, i: In) {
    i.ar.Some? && ReadActive(b, a, room, i) && !b.rd && accept
  }

  predicate AwFire(b: Burst, a: Arb, room: bool, accept: bool, i: In) {
    i.aw.Some? && WriteActive(b, a, room, i) && !b.wr && accept
  }

  predicate WFire(b: Burst, a: Arb, room: bool, accept: bool, i: In) {
    i.w.Some? && WriteActive(b, a, room, i) && accept
  }

  function RamStrobes(b: Burst, a: Arb, room: bool, i: In): Strobes {
    if WriteActive(b, a, room, i) && i.w.Some? then i.w.value.strobes else NO_STROBE
  }

  predicate ExtRequest(b: Burst, a: Arb, room: bool, i: In) {
    ReadActive(b, a, room, i) || Any(RamStrobes(b, a, room, i))
  }

  function RamAddr(b: Burst, a: Arb, room: bool, i: In): Word {
    if b.wr || b.rd then b.addr
    else if WriteActive(b, a, room, i) then (if i.aw.Some? then i.aw.value.addr else 0)
    else if i.ar.Some? then i.ar.value.addr else 0
  }

  predicate Push(b: Burst, a: Arb, room: bool, accept: bool, i: In) { ExtRequest(b, a, room, i) && accept }

  function PushTag(b: Burst, a: Arb, room: bool, accept: bool, i: In): Tag {
    if ArFire(b, a, room, accept, i) then Tag(true, i.ar.value.len == 0, i.ar.value.id)
    else if AwFire(b, a, room, accept, i) then Tag(false, i.aw.value.len == 0, i.aw.value.id)
    else Tag(ReadActive(b, a, room, i), b.len == 0, b.id)
  }

  predicate CpuRequested(c: CpuRequest) { c.rd || Any(c.strobes) || c.maintenance }

  /** The response at the head of both FIFOs leaves: taken by the master, or the silent end of a
      write beat that is not the last of its burst. */
  predicate Pop(s: State, i: In) {
    && s.resps != [] && s.reqs != []
    && (if s.reqs[0].isRead then i.rReady else if s.reqs[0].last then i.bReady else true)
  }

  /** What the RAM port does this clock. */
  function PortAddr(s: State, i: In): Word {
    if ExtAccept(s) then RamAddr(s.burst, s.arb, Room(s), i) else i.cpu.addr
  }
  function PortData(s: State, i: In): Lanes {
    if ExtAccept(s) then (if i.w.Some? then i.w.value.data else ZERO) else i.cpu.data
  }
  function PortStrobes(s: State, i: In): Strobes {
    if ExtAccept(s) then RamStrobes(s.burst, s.arb, Room(s), i) else i.cpu.strobes
  }

  // ---------------------------------------------------------------- next state

  function NextAddr(addr: Word): Word { (addr + 4) % W32 }
  function Continue(b: Burst, go: bool): Burst {
    if !go then b
    else if b.len == 0 then b.(rd := false, wr := false)
    else b.(addr := NextAddr(b.addr), len := b.len - 1)
  }

  function NextBurst(b: Burst, a: Arb, room: bool, accept: bool, i: In): Burst {
    var c := Continue(b, Push(b, a, room, accept, i));
    if AwFire(b, a, room, accept, i) then
      var cmd := i.aw.value;
      if WFire(b, a, room, accept, i) then
        c.(wr := !i.w.value.last, len := Less(cmd.len), id := cmd.id, addr := NextAddr(cmd.addr))
      else
        c.(wr := true, len := cmd.len, id := cmd.id, addr := cmd.addr)
    else if ArFire(b, a, room, accept, i) then
      var cmd := i.ar.value;
      c.(rd := cmd.len != 0, len := Less(cmd.len), id := cmd.id, addr := NextAddr(cmd.addr))
    else c
  }

  function NextArb(b: Burst, a: Arb, room: bool, accept: bool, i: In): Arb {
    Arb(
      if AwFire(b, a, room, accept, i) || ArFire(b, a, room, accept, i) then !a.prio else a.prio,
      if ReadActive(b, a, room, i) && !accept then true else if accept then false else a.holdRd,
      if Any(RamStrobes(b, a, room, i)) && !accept then true else if accept then false else a.holdWr)
  }

  function NextPort(s: State, i: In): Port {
    Port(!ExtRequest(s.burst, s.arb, Room(s), i),
         Push(s.burst, s.arb, Room(s), ExtAccept(s), i),
         CpuRequested(i.cpu) && s.port.cpuTurn,
         if CpuRequested(i.cpu) && s.port.cpuTurn then i.cpu.tag else s.port.cpuTag)
  }

  function NextReqs(s: State, i: In): seq<Tag> {
    FifoNext(s.reqs, DEPTH, Push(s.burst, s.arb, Room(s), ExtAccept(s), i),
             PushTag(s.burst, s.arb, Room(s), ExtAccept(s), i), Pop(s, i))
  }

  function NextResps(s: State, i: In): seq<Lanes> {
    FifoNext(s.resps, DEPTH, s.port.extAck, s.readQ, Pop(s, i))
  }

  function Next(s: State, i: In): State
    requires |s.rows| >= ROWS
  {
    State(
      NextBurst(s.burst, s.arb, Room(s), ExtAccept(s), i),
      NextArb(s.burst, s.arb, Room(s), ExtAccept(s), i),
      NextReqs(s, i), NextResps(s, i), NextPort(s, i),
      Write(s.rows, PortAddr(s, i), PortData(s, i), PortStrobes(s, i)),
      s.rows[Row(PortAddr(s, i))])
  }

  // ---------------------------------------------------------------- the master's side

  /** What the master still offers: an offer stays until it is taken. */
  datatype Offers = Offers(ar: Option<Command>, aw: Option<Command>, w: Option<WriteBeat>)

  function NextOffers(s: State, i: In): Offers {
    Offers(
      if ArFire(s.burst, s.arb, Room(s), ExtAccept(s), i) then None else i.ar,
      if AwFire(s.burst, s.arb, Room(s), ExtAccept(s), i) then None else i.aw,
      if WFire(s.burst, s.arb, Room(s), ExtAccept(s), i) then None else i.w)
  }

  predicate Keeps<T(==)>(offer: Option<T>, now: Option<T>) { offer.Some? ==> now == offer }

  /** The AXI rules a master follows: offers stay, every write beat has a strobe, and a write
      beat taken together with its address is marked last exactly when the burst has one beat. */
  predicate Legal(s: State, o: Offers, i: In) {
    && Keeps(o.ar, i.ar) && Keeps(o.aw, i.aw) && Keeps(o.w, i.w)
    && (i.w.Some? ==> Any(i.w.value.strobes))
    && (AwFire(s.burst, s.arb, Room(s), ExtAccept(s), i) && i.w.Some? ==>
          (i.w.value.last <==> i.aw.value.len == 0))
  }

  // ---------------------------------------------------------------- history

  datatype Order = Order(isRead: bool, cmd: Command)
  datatype Beat = Beat(addr: Word, tag: Tag)
  datatype Taken = Taken(tag: Tag, data: Lanes)
  datatype Who = Cpu(cpuTag: nat) | Ext(tag: Tag)
  datatype Served = Served(cpuTag: nat, data: Lanes)

  /** What has happened so far: accepted commands, write beats and CPU requests, the accesses of the
      RAM port and who made them, and the responses that have left. */
  datatype Hist = Hist(orders: seq<Order>, wbeats: seq<WriteBeat>, calls: seq<CpuRequest>,
                       who: seq<Who>, log: seq<Access>, popped: seq<Taken>, served: seq<Served>)

  const NOTHING := Hist([], [], [], [], [], [], [])

  function Ordered(h: seq<Order>, s: State, i: In): seq<Order> {
    if ArFire(s.burst, s.arb, Room(s), ExtAccept(s), i) then h + [Order(true, i.ar.value)]
    else if AwFire(s.burst, s.arb, Room(s), ExtAccept(s), i) then h + [Order(false, i.aw.value)]
    else h
  }

  predicate Accessed(s: State, i: In) {
    if ExtAccept(s) then ExtRequest(s.burst, s.arb, Room(s), i) else CpuRequested(i.cpu)
  }

  function AccessNow(s: State, i: In): Access
    requires |s.rows| >= ROWS
  {
    Access(PortAddr(s, i), PortData(s, i), PortStrobes(s, i), s.rows[Row(PortAddr(s, i))])
  }

  function WhoNow(s: State, i: In): Who {
    if ExtAccept(s) then Ext(PushTag(s.burst, s.arb, Room(s), ExtAccept(s), i)) else Cpu(i.cpu.tag)
  }

  function Observe(h: Hist, s: State, i: In): Hist
    requires |s.rows| >= ROWS
  {
    Hist(
      Ordered(h.orders, s, i),
      if WFire(s.burst, s.arb, Room(s), ExtAccept(s), i) then h.wbeats + [i.w.value] else h.wbeats,
      if CpuRequested(i.cpu) && s.port.cpuTurn then h.calls + [i.cpu] else h.calls,
      if Accessed(s, i) then h.who + [WhoNow(s, i)] else h.who,
      if Accessed(s, i) then h.log + [AccessNow(s, i)] else h.log,
      if Pop(s, i) then h.popped + [Taken(s.reqs[0], s.resps[0])] else h.popped,
      if s.port.cpuAck then h.served + [Served(s.port.cpuTag, s.readQ)] else h.served)
  }

  datatype System = System(s: State, o: Offers, h: Hist)

  function Start(rows: seq<Lanes>): System { System(Reset(rows), Offers(None, None, None), NOTHING) }

  /** The system after a run of inputs, if the master kept to the rules all along. */
  function After(rows: seq<Lanes>, ins: seq<In>): (r: Option<System>)
    requires |rows| >= ROWS
    ensures r.Some? ==> |r.value.s.rows| == |rows|
  {
    if ins == [] then Some(Start(rows))
    else
      var i := ins[|ins| - 1];
      var before := After(rows, ins[..|ins| - 1]);
      if before.None? || !Legal(before.value.s, before.value.o, i) then None
      else
        var System(s, o, h) := before.value;
        Some(System(Next(s, i), NextOffers(s, i), Observe(h, s, i)))
  }

  // ---------------------------------------------------------------- what bursts stand for

  /** A burst of `len + 1` beats at consecutive words, the last one marked. */
  function Unroll(isRead: bool, addr: Word, len: Len, id: nat): seq<Beat>
    decreases len
  {
    [Beat(addr, Tag(isRead, len == 0, id))]
    + if len == 0 then [] else Unroll(isRead, NextAddr(addr), len - 1, id)
  }

  function UnrollAll(orders: seq<Order>): seq<Beat> {
    if orders == [] then []
    else
      var o := orders[|orders| - 1];
      UnrollAll(orders[..|orders| - 1]) + Unroll(o.isRead, o.cmd.addr, o.cmd.len, o.cmd.id)
  }

  /** The beats the sequencer still owes. */
  function Remaining(b: Burst): seq<Beat> {
    if b.rd then Unroll(true, b.addr, b.len, b.id)
    else if b.wr then Unroll(false, b.addr, b.len, b.id)
    else []
  }

  /** The accesses of the external master, as beats, as responses, and as write data. */
  function Beats(who: seq<Who>, log: seq<Access>): seq<Beat>
    requires |who| == |log|
  {
    if log == [] then []
    else
      var n := |log| - 1;
      Beats(who[..n], log[..n]) + if who[n].Ext? then [Beat(log[n].addr, who[n].tag)] else []
  }

  function ExtTaken(who: seq<Who>, log: seq<Access>): seq<Taken>
    requires |who| == |log|
  {
    if log == [] then []
    else
      var n := |log| - 1;
      ExtTaken(who[..n], log[..n]) + if who[n].Ext? then [Taken(who[n].tag, log[n].seen)] else []
  }

  datatype Payload = Payload(data: Lanes, strobes: Strobes)

  function ExtWrites(who: seq<Who>, log: seq<Access>): seq<Payload>
    requires |who| == |log|
  {
    if log == [] then []
    else
      var n := |log| - 1;
      ExtWrites(who[..n], log[..n])
      + if who[n].Ext? && !who[n].tag.isRead then [Payload(log[n].data, log[n].strobes)] else []
  }

  function Payloads(beats: seq<WriteBeat>): seq<Payload> {
    if beats == [] then []
    else
      var n := |beats| - 1;
      Payloads(beats[..n]) + [Payload(beats[n].data, beats[n].strobes)]
  }

  function CpuServed(who: seq<Who>, log: seq<Access>): seq<Served>
    requires |who| == |log|
  {
    if log == [] then []
    else
      var n := |log| - 1;
      CpuServed(who[..n], log[..n]) + if who[n].Cpu? then [Served(who[n].cpuTag, log[n].seen)] else []
  }

  /** The accesses of the CPU, as it asked for them. */
  datatype Asked = Asked(tag: nat, addr: Word, data: Lanes, strobes: Strobes)

  function CpuAsked(who: seq<Who>, log: seq<Access>): seq<Asked>
    requires |who| == |log|
  {
    if log == [] then []
    else
      var n := |log| - 1;
      CpuAsked(who[..n], log[..n])
      + if who[n].Cpu? then [Asked(who[n].cpuTag, log[n].addr, log[n].data, log[n].strobes)] else []
  }

  function Requests(calls: seq<CpuRequest>): seq<Asked> {
    if calls == [] then []
    else
      var c := calls[|calls| - 1];
      Requests(calls[..|calls| - 1]) + [Asked(c.tag, c.addr, c.data, c.strobes)]
  }

  /** What the master sees of a response: every read beat, and one write response a burst. */
  datatype Reply = R(id: nat, last: bool, data: Lanes) | B(id: nat)

  function Visible(t: seq<Taken>): seq<Reply> {
    if t == [] then []
    else
      var n := |t| - 1;
      Visible(t[..n])
      + if t[n].tag.isRead then [R(t[n].tag.id, t[n].tag.last, t[n].data)]
        else if t[n].tag.last then [B(t[n].tag.id)] else []
  }
}
