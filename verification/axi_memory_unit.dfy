/** The loop body of the test bench's memory, statement by statement, on queues it pushes and pops. */
module AxiMemoryUnit {
  import opened Options
  import opened Words
  import opened AxiMemory

  /** The variables of the read side and of the write side. */
  datatype ReadSide = ReadSide(queue: seq<ReadItem>, r: Option<RBeat>)
  datatype WriteSide = WriteSide(queue: seq<WriteItem>, request: WriteReq, b: Option<nat>, failed: bool)

  class BenchMemory {
    var reading: ReadSide
    var writing: WriteSide
    var ready: Ready
    var mem: map<Word, Byte>

    function View(): (s: State)
      reads this
    {
      State(reading.queue, writing.queue, writing.request, ready, reading.r, writing.b, mem, writing.failed)
    }

    constructor (mem: map<Word, Byte>)
      ensures View() == Reset(mem)
    {
      reading := ReadSide([], None);
      writing := WriteSide([], WriteReq(false, 0, NO_COMMAND), None, false);
      ready := Ready(false, false, false);
      this.mem := mem;
    }

    /** One pass of the loop, from sampling the bus to driving it. */
    method Process(i: In)
      modifies this
      ensures View() == Next(old(View()), i)
    {
      hide Next;
      var n := Pass(View(), i);
      reading, writing := ReadSide(n.rdq, n.r), WriteSide(n.wrq, n.wreq, n.b, n.failed);
      ready, mem := n.ready, n.mem;
    }
  }

  /** The statements of the loop body in their order. */
  method Pass(s: State, i: In) returns (n: State)
    ensures n == Next(s, i)
  {
    hide QueuedReads, QueuedWrites, NextReq, NextRdq, NextWrq, NextR, NextB, ServesWrite, Recorded, Write32;
    var rdq := AcceptRead(s, i);
    var wrq, request, bad := AcceptWrite(s, i);
    var r, b, mem;
    rdq, r := ServeRead(s, rdq, i);
    wrq, b, mem := ServeWrite(s, wrq, i);
    var aw := !i.delay.aw && |wrq| < 128;
    var ready := Ready(!i.delay.ar && |rdq| < 128, aw && !request.active, aw && !i.delay.w);
    n := State(rdq, wrq, request, ready, r, b, mem, s.failed || bad);
  }

  method AcceptRead(s: State, i: In) returns (q: seq<ReadItem>)
    ensures q == QueuedReads(s, i)
  {
    hide Unroll;
    q := s.rdq;
    if i.ar.Some? && s.ready.ar {
      var items := UnrollBurst(i.ar.value);
      q := q + items;
    }
  }

  method AcceptWrite(s: State, i: In) returns (q: seq<WriteItem>, w: WriteReq, bad: bool)
    ensures q == QueuedWrites(s, i) && w == NextReq(s, i) && bad == (WFire(s, i) && !Recorded(s, i).active)
  {
    hide NextAddr;
    q, w, bad := s.wrq, s.wreq, false;
    if i.aw.Some? && s.ready.aw {
      w := WriteReq(true, i.aw.value.addr, i.aw.value);
    }
    if i.w.Some? && s.ready.w {
      bad := !w.active;
      q := q + [WriteItem(w.addr, w.cmd.id, i.w.value)];
      w := w.(addr := NextAddr(w.addr, w.cmd.kind, w.cmd.len));
      if i.w.value.last {
        w := w.(active := false);
      }
    }
  }

  method ServeRead(s: State, queue: seq<ReadItem>, i: In) returns (q: seq<ReadItem>, r: Option<RBeat>)
    requires queue == QueuedReads(s, i)
    ensures q == NextRdq(s, i) && r == NextR(s, i)
  {
    hide Read32, QueuedReads;
    q, r := queue, s.r;
    if r.Some? && i.rReady {
      r := None;
    }
    if r.None? && |q| > 0 && !i.delay.read {
      var item := q[0];
      q := q[1..];
      r := Some(RBeat(item, Read32(s.mem, item.addr)));
    }
  }

  method ServeWrite(s: State, queue: seq<WriteItem>, i: In)
    returns (q: seq<WriteItem>, b: Option<nat>, mem: map<Word, Byte>)
    requires queue == QueuedWrites(s, i)
    ensures q == NextWrq(s, i) && b == NextB(s, i)
    ensures mem == if ServesWrite(s, i) then Write32(s.mem, QueuedWrites(s, i)[0]) else s.mem
  {
    hide Write32, QueuedWrites;
    q, b, mem := queue, s.b, s.mem;
    if b.Some? && i.bReady {
      b := None;
    }
    if b.None? && |q| > 0 && !i.delay.write {
      var item := q[0];
      q := q[1..];
      mem := WriteWord(mem, item);
      b := if item.beat.last then Some(item.id) else None;
    }
  }

  /** The byte loop of a strobed word. */
  method WriteWord(mem: map<Word, Byte>, item: WriteItem) returns (m: map<Word, Byte>)
    ensures m == Write32(mem, item)
  {
    hide ByteOf;
    m := mem;
    for k := 0 to 4
      invariant m == WriteBytes(mem, item.addr, item.beat, k)
    {
      if k < |item.beat.strobes| && item.beat.strobes[k] {
        m := m[(item.addr + k) % W32 := ByteOf(item.beat.data, k)];
      }
    }
  }

  /** The loop that pushes a burst's beats. */
  method UnrollBurst(c: Command) returns (items: seq<ReadItem>)
    ensures items == Unroll(c)
  {
    hide NextAddr;
    var addr := WordAddr(c.addr);
    items := [];
    for k := 0 to c.len + 1
      invariant items + UnrollFrom(addr, c, k) == Unroll(c)
    {
      items := items + [ReadItem(addr, c.id, k == c.len)];
      addr := NextAddr(addr, c.kind, c.len);
    }
  }
}
