/** The memory port as registers, FIFO rings and the RAM array, updated in place once a clock. */
module TcmUnit {
  import opened Options
  import opened Words
  import opened Fifo
  import opened Ram
  import opened TcmModel

  class TcmMem {
    const reqs: RingFifo<Tag>
    const resps: RingFifo<Lanes>
    const ram: SyncRam
    var burst: Burst
    var arb: Arb
    var port: Port

    ghost predicate Valid()
      reads this, reqs, reqs.ram, resps, resps.ram, ram, ram.cells
    {
      && reqs.Valid() && resps.Valid() && ram.Valid()
      && reqs.depth == DEPTH && resps.depth == DEPTH
    }

    ghost function View(): (s: State)
      reads this, reqs, reqs.ram, resps, resps.ram, ram, ram.cells
      requires Valid()
      ensures |s.rows| >= ROWS
    {
      State(burst, arb, reqs.Contents(), resps.Contents(), port, ram.cells[..], ram.readQ)
    }

    constructor (size: nat)
      requires size >= ROWS
      ensures Valid() && ram.cells.Length == size
      ensures View() == Reset(ram.cells[..])
    {
      burst, arb, port := Burst(false, false, 0, 0, 0), Arb(false, false, false), Port(true, false, false, 0);
      reqs := new RingFifo<Tag>(DEPTH, Tag(false, false, 0));
      resps := new RingFifo<Lanes>(DEPTH, ZERO);
      ram := new SyncRam(size);
    }

    /** The wires of this clock. */
    method Wires(i: In) returns (room: bool, accept: bool, push: bool, tag: Tag, pop: bool)
      requires Valid()
      ensures var s := View();
              && room == Room(s) && accept == ExtAccept(s) && pop == Pop(s, i)
              && push == Push(s.burst, s.arb, room, accept, i)
              && tag == PushTag(s.burst, s.arb, room, accept, i)
    {
      room, accept := reqs.Accept(), !port.cpuTurn;
      push := ExtRequest(burst, arb, room, i) && accept;
      if ArFire(burst, arb, room, accept, i) {
        tag := Tag(true, i.ar.value.len == 0, i.ar.value.id);
      } else if AwFire(burst, arb, room, accept, i) {
        tag := Tag(false, i.aw.value.len == 0, i.aw.value.id);
      } else {
        tag := Tag(ReadActive(burst, arb, room, i), burst.len == 0, burst.id);
      }
      pop := false;
      if resps.HasData() && reqs.HasData() {
        var head := reqs.Head();
        pop := if head.isRead then i.rReady else if head.last then i.bReady else true;
      }
    }

    method RamSignals(i: In, room: bool, accept: bool) returns (addr: Word, data: Lanes, strobes: Strobes)
      requires Valid() && room == Room(View()) && accept == ExtAccept(View())
      ensures var s := View(); addr == PortAddr(s, i) && data == PortData(s, i) && strobes == PortStrobes(s, i)
    {
      if accept {
        addr, strobes := RamAddr(burst, arb, room, i), RamStrobes(burst, arb, room, i);
        data := if i.w.Some? then i.w.value.data else ZERO;
      } else {
        addr, data, strobes := i.cpu.addr, i.cpu.data, i.cpu.strobes;
      }
    }

    /** The FIFOs and the RAM; the word on the RAM output goes to the response FIFO. */
    method ClockMemories(push: bool, tag: Tag, pop: bool, addr: Word, data: Lanes, strobes: Strobes)
      requires Valid()
      modifies reqs, reqs.ram, resps, resps.ram, ram, ram.cells
      ensures Valid()
      ensures reqs.Contents() == FifoNext(old(reqs.Contents()), DEPTH, push, tag, pop)
      ensures resps.Contents() == FifoNext(old(resps.Contents()), DEPTH, port.extAck, old(ram.readQ), pop)
      ensures ram.cells[..] == Write(old(ram.cells[..]), addr, data, strobes)
      ensures ram.readQ == old(ram.cells[..])[Row(addr)]
    {
      hide FifoNext, Write, Row, RingFifo.Contents;
      reqs.Step(push, tag, pop);
      resps.Step(port.extAck, ram.readQ, pop);
      ram.Clock(addr, data, strobes);
    }

    /** One clock edge. */
    method Step(i: In)
      requires Valid()
      modifies this, reqs, reqs.ram, resps, resps.ram, ram, ram.cells
      ensures Valid() && View() == Next(old(View()), i)
    {
      hide PushTag, ExtRequest, RamAddr, RamStrobes, NextBurst, NextArb, Write, FifoNext, Row, Pop, PortAddr, PortData,
        PortStrobes, CpuRequested, RingFifo.Contents, RingFifo.Valid, SyncRam.Valid, RingFifo.HasData;
      ghost var s := View();
      var room, accept, push, tag, pop := Wires(i);
      var addr, data, strobes := RamSignals(i, room, accept);
      var nextBurst := ClockBurst(burst, arb, room, accept, i);
      var nextArb := ClockArb(burst, arb, room, accept, i);
      var nextPort := ClockPort(port, push, ExtRequest(burst, arb, room, i), i.cpu);
      ClockMemories(push, tag, pop, addr, data, strobes);
      burst, arb, port := nextBurst, nextArb, nextPort;
    }
  }

  method ClockBurst(b: Burst, a: Arb, room: bool, accept: bool, i: In) returns (r: Burst)
    ensures r == NextBurst(b, a, room, accept, i)
  {
    hide ExtRequest, NextAddr, WriteActive, ReadActive;
    r := b;
    if Push(b, a, room, accept, i) {
      if b.len == 0 {
        r := r.(rd := false, wr := false);
      } else {
        r := r.(addr := NextAddr(b.addr), len := b.len - 1);
      }
    }
    if AwFire(b, a, room, accept, i) {
      var cmd := i.aw.value;
      if WFire(b, a, room, accept, i) {
        r := r.(wr := !i.w.value.last, len := Less(cmd.len), id := cmd.id, addr := NextAddr(cmd.addr));
      } else {
        r := r.(wr := true, len := cmd.len, id := cmd.id, addr := cmd.addr);
      }
    } else if ArFire(b, a, room, accept, i) {
      var cmd := i.ar.value;
      r := r.(rd := cmd.len != 0, len := Less(cmd.len), id := cmd.id, addr := NextAddr(cmd.addr));
    }
  }

  method ClockArb(b: Burst, a: Arb, room: bool, accept: bool, i: In) returns (r: Arb)
    ensures r == NextArb(b, a, room, accept, i)
  {
    r := a;
    if AwFire(b, a, room, accept, i) {
      r := r.(prio := !a.prio);
    } else if ArFire(b, a, room, accept, i) {
      r := r.(prio := !a.prio);
    }
    if ReadActive(b, a, room, i) && !accept {
      r := r.(holdRd := true);
    } else if accept {
      r := r.(holdRd := false);
    }
    if Any(RamStrobes(b, a, room, i)) && !accept {
      r := r.(holdWr := true);
    } else if accept {
      r := r.(holdWr := false);
    }
  }

  method ClockPort(p: Port, push: bool, request: bool, cpu: CpuRequest) returns (r: Port)
    ensures r == Port(!request, push, CpuRequested(cpu) && p.cpuTurn,
                      if CpuRequested(cpu) && p.cpuTurn then cpu.tag else p.cpuTag)
  {
    r := p.(cpuTurn := !request, extAck := push, cpuAck := false);
    if CpuRequested(cpu) && p.cpuTurn {
      r := r.(cpuAck := true, cpuTag := cpu.tag);
    }
  }
}
