/** The test bench's AXI memory: queues of unrolled read beats and of write beats, served under
    arbitrary delays. */
module AxiMemory {
  import opened Options
  import opened Words

  datatype Kind = Fixed | Incr | WrapBurst

  datatype Command = Command(addr: Word, id: nat, len: Len, kind: Kind)
  datatype WriteBeat = WriteBeat(data: Word, strobes: seq<bool>, last: bool)

  // ---------------------------------------------------------------- addresses

  /** All-ones masks; anding with one is the remainder by the next power of two. */
  function WrapMask(len: Len): nat {
    if len == 0 then 0x03 else if len == 1 then 0x07 else if len == 3 then 0x0f else if len == 7 then 0x1f else 0x3f
  }

  function NextAddr(addr: Word, kind: Kind, len: Len): Word {
    match kind
    case Fixed => addr
    case Incr => (addr + 4) % W32
    case WrapBurst =>
      var block := WrapMask(len) + 1;
      WrapFits(addr, len);
      (addr - addr % block) + (addr + 4) % block
  }

  lemma WrapFits(addr: Word, len: Len)
    ensures var block := WrapMask(len) + 1; addr - addr % block + block <= W32
  {
    var block := WrapMask(len) + 1;
    BlockFits(addr, block, W32 / block);
  }

  lemma BlockFits(addr: nat, block: nat, blocks: nat)
    requires block > 0 && addr < blocks * block
    ensures addr - addr % block + block <= blocks * block
  {
    var q := addr / block;
    assert addr == q * block + addr % block;
    MulGap(block, blocks - q);
    assert block * (blocks - q) == blocks * block - q * block;
  }

  /** The address of beat `k` of a burst. */
  function AddrAt(addr: Word, c: Command, k: nat): Word {
    if k == 0 then addr else NextAddr(AddrAt(addr, c, k - 1), c.kind, c.len)
  }

  /** Reads start at the word. */
  function WordAddr(addr: Word): Word { addr - addr % 4 }

  // ---------------------------------------------------------------- state

  datatype ReadItem = ReadItem(addr: Word, id: nat, last: bool)
  datatype WriteItem = WriteItem(addr: Word, id: nat, beat: WriteBeat)
  datatype RBeat = RBeat(item: ReadItem, data: Word)

  /** The write burst whose data is being taken. */
  datatype WriteReq = WriteReq(active: bool, addr: Word, cmd: Command)
  datatype Ready = Ready(ar: bool, aw: bool, w: bool)

  datatype State = State(rdq: seq<ReadItem>, wrq: seq<WriteItem>, wreq: WriteReq, ready: Ready,
                         r: Option<RBeat>, b: Option<nat>, mem: map<Word, Byte>, failed: bool)

  const NO_COMMAND := Command(0, 0, 0, Fixed)

  function Reset(mem: map<Word, Byte>): State {
    State([], [], WriteReq(false, 0, NO_COMMAND), Ready(false, false, false), None, None, mem, false)
  }

  /** The five calls of `delay_cycle`: before serving a read, a write, and for the three readies. */
  datatype Delays = Delays(read: bool, write: bool, ar: bool, aw: bool, w: bool)
  datatype In = In(ar: Option<Command>, aw: Option<Command>, w: Option<WriteBeat>, rReady: bool, bReady: bool, delay: Delays)

  // ---------------------------------------------------------------- memory

  function ReadByte(mem: map<Word, Byte>, a: Word): Byte { if a in mem then mem[a] else 0 }

  function Read32(mem: map<Word, Byte>, a: Word): Word {
    ReadByte(mem, a) + 0x100 * ReadByte(mem, (a + 1) % W32) + 0x1_0000 * ReadByte(mem, (a + 2) % W32)
    + 0x100_0000 * ReadByte(mem, (a + 3) % W32)
  }

  function ByteOf(x: Word, k: nat): Byte {
    if k == 0 then x % 0x100 else if k == 1 then x / 0x100 % 0x100
    else if k == 2 then x / 0x1_0000 % 0x100 else x / 0x100_0000 % 0x100
  }

  /** The first `n` byte writes of a strobed word. */
  function WriteBytes(mem: map<Word, Byte>, a: Word, beat: WriteBeat, n: nat): map<Word, Byte> {
    if n == 0 then mem
    else
      var m := WriteBytes(mem, a, beat, n - 1);
      if n - 1 < |beat.strobes| && beat.strobes[n - 1] then m[(a + (n - 1)) % W32 := ByteOf(beat.data, n - 1)] else m
  }

  function Write32(mem: map<Word, Byte>, i: WriteItem): map<Word, Byte> { WriteBytes(mem, i.addr, i.beat, 4) }

  // ---------------------------------------------------------------- one pass of the loop

  predicate ArFire(s: State, i: In) { i.ar.Some? && s.ready.ar }
  predicate AwFire(s: State, i: In) { i.aw.Some? && s.ready.aw }
  predicate WFire(s: State, i: In) { i.w.Some? && s.ready.w }

  function UnrollFrom(addr: Word, c: Command, k: nat): seq<ReadItem>
    requires k <= c.len + 1
    decreases c.len + 1 - k
  {
    if k == c.len + 1 then []
    else [ReadItem(addr, c.id, k == c.len)] + UnrollFrom(NextAddr(addr, c.kind, c.len), c, k + 1)
  }

  function Unroll(c: Command): seq<ReadItem> { UnrollFrom(WordAddr(c.addr), c, 0) }

  function QueuedReads(s: State, i: In): seq<ReadItem> {
    if ArFire(s, i) then s.rdq + Unroll(i.ar.value) else s.rdq
  }

  function Recorded(s: State, i: In): WriteReq {
    if AwFire(s, i) then WriteReq(true, i.aw.value.addr, i.aw.value) else s.wreq
  }

  function ItemOf(q: WriteReq, w: WriteBeat): WriteItem { WriteItem(q.addr, q.cmd.id, w) }

  function QueuedWrites(s: State, i: In): seq<WriteItem> {
    if WFire(s, i) then s.wrq + [ItemOf(Recorded(s, i), i.w.value)] else s.wrq
  }

  function NextReq(s: State, i: In): WriteReq {
    var q := Recorded(s, i);
    if WFire(s, i) then WriteReq(q.active && !i.w.value.last, NextAddr(q.addr, q.cmd.kind, q.cmd.len), q.cmd) else q
  }

  function RAfterTake(s: State, i: In): Option<RBeat> { if i.rReady then None else s.r }
  function BAfterTake(s: State, i: In): Option<nat> { if i.bReady then None else s.b }

  predicate ServesRead(s: State, i: In) { RAfterTake(s, i).None? && QueuedReads(s, i) != [] && !i.delay.read }
  predicate ServesWrite(s: State, i: In) { BAfterTake(s, i).None? && QueuedWrites(s, i) != [] && !i.delay.write }

  function NextRdq(s: State, i: In): seq<ReadItem> {
    if ServesRead(s, i) then QueuedReads(s, i)[1..] else QueuedReads(s, i)
  }
  function NextWrq(s: State, i: In): seq<WriteItem> {
    if ServesWrite(s, i) then QueuedWrites(s, i)[1..] else QueuedWrites(s, i)
  }

  function NextR(s: State, i: In): Option<RBeat> {
    if ServesRead(s, i) then Some(RBeat(QueuedReads(s, i)[0], Read32(s.mem, QueuedReads(s, i)[0].addr))) else RAfterTake(s, i)
  }

  function NextB(s: State, i: In): Option<nat> {
    if ServesWrite(s, i) then
      if QueuedWrites(s, i)[0].beat.last then Some(QueuedWrites(s, i)[0].id) else None
    else BAfterTake(s, i)
  }

  function NextReady(s: State, i: In): Ready {
    var aw := !i.delay.aw && |NextWrq(s, i)| < 128;
    Ready(!i.delay.ar && |NextRdq(s, i)| < 128, aw && !NextReq(s, i).active, aw && !i.delay.w)
  }

  function Next(s: State, i: In): State {
    State(NextRdq(s, i), NextWrq(s, i), NextReq(s, i), NextReady(s, i), NextR(s, i), NextB(s, i),
          if ServesWrite(s, i) then Write32(s.mem, QueuedWrites(s, i)[0]) else s.mem,
          s.failed || (WFire(s, i) && !Recorded(s, i).active))
  }

  /** A master offers write data only with the address of its burst or after it was taken. */
  predicate Legal(s: State, i: In) { i.w.Some? ==> i.aw.Some? || s.wreq.active }

  // ---------------------------------------------------------------- history

  /** A write burst and the data beats taken for it. */
  datatype WriteBurst = WriteBurst(cmd: Command, beats: seq<WriteBeat>)

  /** `stamps` are the numbers of writes served before each read beat was. */
  datatype Hist = Hist(orders: seq<Command>, delivered: seq<RBeat>, stamps: seq<nat>, done: seq<WriteBurst>,
                       cur: Option<WriteBurst>, written: seq<WriteItem>, bs: seq<nat>)

  function Opened(h: Hist, s: State, i: In): Option<WriteBurst> {
    if AwFire(s, i) then Some(WriteBurst(i.aw.value, [])) else h.cur
  }

  function Grown(h: Hist, s: State, i: In): Option<WriteBurst> {
    var cur := Opened(h, s, i);
    if WFire(s, i) && cur.Some? then Some(cur.value.(beats := cur.value.beats + [i.w.value])) else cur
  }

  predicate Ends(h: Hist, s: State, i: In) { WFire(s, i) && i.w.value.last && Opened(h, s, i).Some? }

  function Observe(h: Hist, s: State, i: In): Hist {
    Hist(
      if ArFire(s, i) then h.orders + [i.ar.value] else h.orders,
      if i.rReady && s.r.Some? then h.delivered + [s.r.value] else h.delivered,
      if ServesRead(s, i) then h.stamps + [|h.written|] else h.stamps,
      if Ends(h, s, i) then h.done + [Grown(h, s, i).value] else h.done,
      if Ends(h, s, i) then None else Grown(h, s, i),
      if ServesWrite(s, i) then h.written + [QueuedWrites(s, i)[0]] else h.written,
      if i.bReady && s.b.Some? then h.bs + [s.b.value] else h.bs)
  }

  datatype System = System(s: State, h: Hist)

  function After(mem: map<Word, Byte>, ins: seq<In>): Option<System> {
    if ins == [] then Some(System(Reset(mem), Hist([], [], [], [], None, [], [])))
    else
      match After(mem, ins[..|ins| - 1])
      case None => None
      case Some(System(s, h)) =>
        var i := ins[|ins| - 1];
        if Legal(s, i) then Some(System(Next(s, i), Observe(h, s, i))) else None
  }

  // ---------------------------------------------------------------- what commands stand for

  function UnrollAll(orders: seq<Command>): seq<ReadItem> {
    if orders == [] then [] else UnrollAll(orders[..|orders| - 1]) + Unroll(orders[|orders| - 1])
  }

  function Items(beats: seq<RBeat>): seq<ReadItem> {
    if beats == [] then [] else Items(beats[..|beats| - 1]) + [beats[|beats| - 1].item]
  }

  /** The writes of a burst: each beat at the address its place in the burst gives. */
  function ItemsOf(b: WriteBurst, n: nat): seq<WriteItem>
    requires n <= |b.beats|
  {
    if n == 0 then [] else ItemsOf(b, n - 1) + [WriteItem(AddrAt(b.cmd.addr, b.cmd, n - 1), b.cmd.id, b.beats[n - 1])]
  }

  function AllItems(bursts: seq<WriteBurst>): seq<WriteItem> {
    if bursts == [] then []
    else AllItems(bursts[..|bursts| - 1]) + ItemsOf(bursts[|bursts| - 1], |bursts[|bursts| - 1].beats|)
  }

  function Ids(bursts: seq<WriteBurst>): seq<nat> {
    if bursts == [] then [] else Ids(bursts[..|bursts| - 1]) + [bursts[|bursts| - 1].cmd.id]
  }

  /** The responses the queued writes will give. */
  function LastIds(q: seq<WriteItem>): seq<nat> {
    if q == [] then [] else LastIds(q[..|q| - 1]) + if q[|q| - 1].beat.last then [q[|q| - 1].id] else []
  }

}
