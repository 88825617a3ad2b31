/** What the AXI memory keeps for every choice of delays, and what its wrapping bursts visit. */
module AxiMemoryProofs {
  import opened Options
  import opened Words
  import opened AxiMemory

  // ---------------------------------------------------------------- reads

  /** Read beats that have left or stand in the output register, oldest first. */
  function Shown(s: State, h: Hist): seq<RBeat> { h.delivered + Opt(s.r) }

  ghost predicate ReadsKept(s: State, h: Hist) { Items(Shown(s, h)) + s.rdq == UnrollAll(h.orders) }

  lemma ItemsSnoc(beats: seq<RBeat>, b: RBeat)
    ensures Items(beats + [b]) == Items(beats) + [b.item]
  {
    assert (beats + [b])[..|beats|] == beats;
  }

  /** A beat is shown when it is served, and stays shown until and after it is taken. */
  lemma ShownStep(s: State, h: Hist, i: In)
    ensures Shown(Next(s, i), Observe(h, s, i))
            == Shown(s, h) + if ServesRead(s, i) then [NextR(s, i).value] else []
  {
    hide Unroll, Read32, QueuedReads, NextRdq, NextWrq, NextReq, NextReady, NextB, Write32, ServesWrite, Ends, Grown;
  }

  lemma UnrollAllSnoc(orders: seq<Command>, c: Command)
    ensures UnrollAll(orders + [c]) == UnrollAll(orders) + Unroll(c)
  {
    assert (orders + [c])[..|orders|] == orders;
  }

  lemma ReadsStep(s: State, h: Hist, i: In)
    requires ReadsKept(s, h)
    ensures ReadsKept(Next(s, i), Observe(h, s, i))
  {
    hide Unroll, Read32, UnrollAll, NextWrq, NextReq, NextReady, NextB, Write32, ServesWrite, Ends, Grown, Items, Shown;
    var more := if ArFire(s, i) then Unroll(i.ar.value) else [];
    if ArFire(s, i) {
      UnrollAllSnoc(h.orders, i.ar.value);
    }
    var h2, q := Observe(h, s, i), QueuedReads(s, i);
    assert UnrollAll(h2.orders) == UnrollAll(h.orders) + more;
    assert Items(Shown(s, h)) + q == UnrollAll(h2.orders) by {
      assert q == s.rdq + more;
      assert Items(Shown(s, h)) + (s.rdq + more) == (Items(Shown(s, h)) + s.rdq) + more;
    }
    ShownStep(s, h, i);
    if ServesRead(s, i) {
      ItemsSnoc(Shown(s, h), NextR(s, i).value);
      assert q == [q[0]] + q[1..];
      assert (Items(Shown(s, h)) + [q[0]]) + q[1..] == Items(Shown(s, h)) + q;
    } else {
      assert Shown(s, h) + [] == Shown(s, h);
    }
  }

  /** The data of each read beat is what the writes served before it had made of memory. */
  ghost predicate DataKept(mem: map<Word, Byte>, s: State, h: Hist) {
    && |h.stamps| == |Shown(s, h)|
    && forall k :: 0 <= k < |h.stamps| ==> DataAt(mem, h, Shown(s, h)[k], h.stamps[k])
  }

  ghost predicate DataAt(mem: map<Word, Byte>, h: Hist, b: RBeat, n: nat) {
    n <= |h.written| && b.data == Read32(WriteAll(mem, h.written[..n]), b.item.addr)
  }

  lemma DataStep(mem: map<Word, Byte>, s: State, h: Hist, i: In)
    requires DataKept(mem, s, h) && MemoryKept(mem, s, h)
    ensures DataKept(mem, Next(s, i), Observe(h, s, i))
  {
    hide Read32, Write32, WriteAll, Shown, QueuedReads, NextRdq, NextWrq, NextReq, NextReady, NextB, Ends, Grown;
    ShownStep(s, h, i);
    var h2, n := Observe(h, s, i), Next(s, i);
    assert h.written[..|h.written|] == h.written;
    forall k | 0 <= k < |h2.stamps| ensures DataAt(mem, h2, Shown(n, h2)[k], h2.stamps[k]) {
      if k < |h.stamps| {
        assert DataAt(mem, h, Shown(s, h)[k], h.stamps[k]);
        assert h2.written[..h.stamps[k]] == h.written[..h.stamps[k]];
      } else {
        assert h2.written[..|h.written|] == h.written;
      }
    }
  }

  // ---------------------------------------------------------------- the write burst

  /** Data is taken only under an address: the burst in service is the recorded request, and its
      next beat goes to the recorded address. */
  ghost predicate WriteControl(s: State, h: Hist) {
    && !s.failed
    && (s.ready.w ==> s.ready.aw || s.wreq.active)
    && (s.ready.aw ==> !s.wreq.active)
    && (h.cur.Some? <==> s.wreq.active)
    && (h.cur.Some? ==>
          && s.wreq.cmd == h.cur.value.cmd
          && s.wreq.addr == AddrAt(h.cur.value.cmd.addr, h.cur.value.cmd, |h.cur.value.beats|))
  }

  lemma WriteControlStep(s: State, h: Hist, i: In)
    requires WriteControl(s, h) && Legal(s, i)
    ensures WriteControl(Next(s, i), Observe(h, s, i))
    ensures WFire(s, i) ==> Opened(h, s, i).Some? && Recorded(s, i).active
  {
    hide Write32, Read32, Unroll, NextAddr, AddrAt;
    var o := Opened(h, s, i);
    if o.Some? {
      AddrAtStep(o.value.cmd, 0);
      AddrAtStep(o.value.cmd, |o.value.beats|);
    }
  }

  lemma AddrAtStep(c: Command, k: nat)
    ensures AddrAt(c.addr, c, 0) == c.addr
    ensures AddrAt(c.addr, c, k + 1) == NextAddr(AddrAt(c.addr, c, k), c.kind, c.len)
  {
  }

  /** The last beat of a finished burst, and no other, is marked. */
  predicate Finished(b: WriteBurst) {
    b.beats != [] && forall k :: 0 <= k < |b.beats| ==> (b.beats[k].last <==> k == |b.beats| - 1)
  }

  predicate Unfinished(b: WriteBurst) { forall k :: 0 <= k < |b.beats| ==> !b.beats[k].last }

  ghost predicate Marked(h: Hist) {
    && (forall b :: b in h.done ==> Finished(b))
    && (h.cur.Some? ==> Unfinished(h.cur.value))
  }

  lemma MarkedStep(s: State, h: Hist, i: In)
    requires WriteControl(s, h) && Legal(s, i) && Marked(h)
    ensures Marked(Observe(h, s, i))
  {
    WriteControlStep(s, h, i);
  }

  lemma {:induction false} ItemsStay(b: WriteBurst, b2: WriteBurst, n: nat)
    requires n <= |b.beats| && b.cmd == b2.cmd && b.beats <= b2.beats
    ensures ItemsOf(b2, n) == ItemsOf(b, n)
  {
    if n > 0 {
      hide AddrAt;
      ItemsStay(b, b2, n - 1);
    }
  }

  function CurItems(h: Hist): seq<WriteItem> {
    if h.cur.Some? then ItemsOf(h.cur.value, |h.cur.value.beats|) else []
  }

  ghost predicate WritesKept(s: State, h: Hist) {
    h.written + s.wrq == AllItems(h.done) + CurItems(h)
  }

  lemma AllItemsSnoc(done: seq<WriteBurst>, b: WriteBurst)
    ensures AllItems(done + [b]) == AllItems(done) + ItemsOf(b, |b.beats|)
    ensures Ids(done + [b]) == Ids(done) + [b.cmd.id]
  {
    assert (done + [b])[..|done|] == done;
  }

  /** A data beat taken is the next write of the burst in service. */
  lemma BeatTaken(s: State, h: Hist, i: In)
    requires WriteControl(s, h) && Legal(s, i)
    ensures
      var h2 := Observe(h, s, i);
      AllItems(h2.done) + CurItems(h2)
      == AllItems(h.done) + CurItems(h) + if WFire(s, i) then [ItemOf(Recorded(s, i), i.w.value)] else []
  {
    hide AllItems, Ids, WriteControl, Opened, Recorded, ItemOf, ItemsOf, ServesWrite, AddrAt;
    assert WFire(s, i) ==> Opened(h, s, i).Some? by { WriteControlStep(s, h, i); }
    OpenedItems(s, h, i);
    if WFire(s, i) {
      var o, w := Opened(h, s, i).value, i.w.value;
      var g := o.(beats := o.beats + [w]);
      GrownItems(o, Recorded(s, i), w);
      if w.last {
        AllItemsSnoc(h.done, g);
      }
    }
  }

  lemma GrownItems(o: WriteBurst, q: WriteReq, w: WriteBeat)
    requires q.addr == AddrAt(o.cmd.addr, o.cmd, |o.beats|) && q.cmd == o.cmd
    ensures var g := o.(beats := o.beats + [w]);
            ItemsOf(g, |g.beats|) == ItemsOf(o, |o.beats|) + [ItemOf(q, w)]
  {
    hide AddrAt;
    ItemsStay(o, o.(beats := o.beats + [w]), |o.beats|);
  }

  lemma OpenedItems(s: State, h: Hist, i: In)
    requires WriteControl(s, h) && Legal(s, i)
    ensures var o := Opened(h, s, i);
            && (AwFire(s, i) ==> h.cur.None?)
            && (if o.Some? then ItemsOf(o.value, |o.value.beats|) else []) == CurItems(h)
            && (o.Some? ==> Recorded(s, i).addr == AddrAt(o.value.cmd.addr, o.value.cmd, |o.value.beats|)
                            && Recorded(s, i).cmd == o.value.cmd)
  {
  }

  lemma WritesStep(s: State, h: Hist, i: In)
    requires WriteControl(s, h) && Legal(s, i) && WritesKept(s, h)
    ensures WritesKept(Next(s, i), Observe(h, s, i))
  {
    hide AllItems, CurItems, ItemOf, WriteControl, Grown, Opened, Ends, NextReady, Write32;
    BeatTaken(s, h, i);
    var q := QueuedWrites(s, i);
    assert h.written + q == (h.written + s.wrq) + if WFire(s, i) then [ItemOf(Recorded(s, i), i.w.value)] else [];
    if ServesWrite(s, i) {
      assert q == [q[0]] + q[1..];
      assert (h.written + [q[0]]) + q[1..] == h.written + q;
    }
  }

  // ---------------------------------------------------------------- write responses

  ghost predicate ResponsesKept(s: State, h: Hist) {
    h.bs + Opt(s.b) + LastIds(s.wrq) == Ids(h.done)
  }

  lemma {:induction false} LastIdsConcat(a: seq<WriteItem>, b: seq<WriteItem>)
    ensures LastIds(a + b) == LastIds(a) + LastIds(b)
  {
    if b == [] {
      assert a + b == a;
    } else {
      var n := |b| - 1;
      LastIdsConcat(a, b[..n]);
      assert (a + b)[..|a + b| - 1] == a + b[..n];
      var more := if b[n].beat.last then [b[n].id] else [];
      assert (LastIds(a) + LastIds(b[..n])) + more == LastIds(a) + (LastIds(b[..n]) + more);
    }
  }

  lemma LastIdsOne(x: WriteItem)
    ensures LastIds([x]) == if x.beat.last then [x.id] else []
  {
    assert [x][..0] == [];
  }

  lemma ResponsesStep(s: State, h: Hist, i: In)
    requires WriteControl(s, h) && Legal(s, i) && ResponsesKept(s, h)
    ensures ResponsesKept(Next(s, i), Observe(h, s, i))
  {
    hide LastIds, Ids, Write32, NextReady, AddrAt, ItemsOf, AllItems;
    QueuedIds(s, h, i);
    var h2, q := Observe(h, s, i), QueuedWrites(s, i);
    assert h2.bs + Opt(BAfterTake(s, i)) == h.bs + Opt(s.b);
    hide WriteControl, QueuedWrites, Ends, WFire, Grown, Opened;
    if ServesWrite(s, i) {
      assert q == [q[0]] + q[1..];
      LastIdsConcat([q[0]], q[1..]);
      LastIdsOne(q[0]);
    }
  }

  lemma QueuedIds(s: State, h: Hist, i: In)
    requires WriteControl(s, h) && Legal(s, i) && ResponsesKept(s, h)
    ensures h.bs + Opt(s.b) + LastIds(QueuedWrites(s, i)) == Ids(Observe(h, s, i).done)
  {
    hide LastIds, Ids, Write32, NextReady, AddrAt, ItemsOf, AllItems, NextAddr;
    WriteControlStep(s, h, i);
    if WFire(s, i) {
      var item := ItemOf(Recorded(s, i), i.w.value);
      LastIdsConcat(s.wrq, [item]);
      LastIdsOne(item);
      AllItemsSnoc(h.done, Grown(h, s, i).value);
    }
  }

  // ---------------------------------------------------------------- memory

  function WriteAll(mem: map<Word, Byte>, items: seq<WriteItem>): map<Word, Byte> {
    if items == [] then mem else Write32(WriteAll(mem, items[..|items| - 1]), items[|items| - 1])
  }

  ghost predicate MemoryKept(mem: map<Word, Byte>, s: State, h: Hist) { s.mem == WriteAll(mem, h.written) }

  lemma MemoryStep(mem: map<Word, Byte>, s: State, h: Hist, i: In)
    requires MemoryKept(mem, s, h)
    ensures MemoryKept(mem, Next(s, i), Observe(h, s, i))
  {
    hide Write32, NextReady, NextReq, NextR, NextB;
    if ServesWrite(s, i) {
      assert (h.written + [QueuedWrites(s, i)[0]])[..|h.written|] == h.written;
    }
  }

  // ---------------------------------------------------------------- main results

  ghost predicate Inv(mem: map<Word, Byte>, x: System) {
    && ReadsKept(x.s, x.h) && WriteControl(x.s, x.h) && Marked(x.h) && WritesKept(x.s, x.h)
    && ResponsesKept(x.s, x.h) && MemoryKept(mem, x.s, x.h) && DataKept(mem, x.s, x.h)
  }

  lemma {:induction false} Always(mem: map<Word, Byte>, ins: seq<In>)
    requires After(mem, ins).Some?
    ensures Inv(mem, After(mem, ins).value)
  {
    if ins != [] {
      hide ReadsKept, WriteControl, Marked, WritesKept, ResponsesKept, MemoryKept, DataKept, Next, Observe, Legal;
      var n := |ins| - 1;
      Always(mem, ins[..n]);
      var System(s, h) := After(mem, ins[..n]).value;
      ReadsStep(s, h, ins[n]);
      WriteControlStep(s, h, ins[n]);
      MarkedStep(s, h, ins[n]);
      WritesStep(s, h, ins[n]);
      ResponsesStep(s, h, ins[n]);
      MemoryStep(mem, s, h, ins[n]);
      DataStep(mem, s, h, ins[n]);
    }
  }

  /** Delivered read beats, then the output register, then the queue: exactly the unrolled bursts
      of all accepted reads. And each beat's data is the word that the writes served before it
      left at its address. */
  lemma {:induction false} ReadBeatsAreTheBursts(mem: map<Word, Byte>, ins: seq<In>)
    requires After(mem, ins).Some?
    ensures var System(s, h) := After(mem, ins).value;
            && Items(h.delivered + Opt(s.r)) + s.rdq == UnrollAll(h.orders)
            && |h.stamps| == |h.delivered + Opt(s.r)|
            && forall k :: 0 <= k < |h.stamps| ==>
                 && h.stamps[k] <= |h.written|
                 && (h.delivered + Opt(s.r))[k].data
                    == Read32(WriteAll(mem, h.written[..h.stamps[k]]), (h.delivered + Opt(s.r))[k].item.addr)
  {
    hide WriteControl, Marked, WritesKept, ResponsesKept, MemoryKept, Read32, WriteAll, After, Items, UnrollAll;
    Always(mem, ins);
    var System(s, h) := After(mem, ins).value;
    forall k | 0 <= k < |h.stamps| ensures DataAt(mem, h, (h.delivered + Opt(s.r))[k], h.stamps[k]) {
      assert DataAt(mem, h, Shown(s, h)[k], h.stamps[k]);
    }
  }

  /** Byte `k` of a written word: the data's where its strobe is set, and what was there elsewhere. */
  lemma {:induction false} WrittenByte(mem: map<Word, Byte>, a: Word, beat: WriteBeat, n: nat, k: nat)
    requires n <= 4 && k < 4
    ensures ReadByte(WriteBytes(mem, a, beat, n), (a + k) % W32)
            == if k < n && k < |beat.strobes| && beat.strobes[k] then ByteOf(beat.data, k) else ReadByte(mem, (a + k) % W32)
  {
    hide ByteOf;
    if n > 0 {
      WrittenByte(mem, a, beat, n - 1, k);
      Distinct(a, n - 1, k);
    }
  }

  lemma Distinct(a: Word, j: nat, k: nat)
    requires j < 4 && k < 4
    ensures (a + j) % W32 == (a + k) % W32 <==> j == k
  {
    Near(a, j);
    Near(a, k);
  }

  lemma Near(a: Word, j: nat)
    requires j < 4
    ensures (a + j) % W32 == if a + j < W32 then a + j else a + j - W32
  {
  }

  /** Reading a word back after a write with all strobes set gives the word written, also where its
      bytes wrap round the end of the address space. */
  lemma {:induction false} ReadAfterWrite(mem: map<Word, Byte>, item: WriteItem)
    requires |item.beat.strobes| == 4 && forall k :: 0 <= k < 4 ==> item.beat.strobes[k]
    ensures Read32(Write32(mem, item), item.addr) == item.beat.data
  {
    hide WriteBytes, ReadByte, ByteOf;
    WrittenByte(mem, item.addr, item.beat, 4, 0);
    WrittenByte(mem, item.addr, item.beat, 4, 1);
    WrittenByte(mem, item.addr, item.beat, 4, 2);
    WrittenByte(mem, item.addr, item.beat, 4, 3);
    BytesMakeWord(item.beat.data);
  }

  lemma BytesMakeWord(x: Word)
    ensures ByteOf(x, 0) + 0x100 * ByteOf(x, 1) + 0x1_0000 * ByteOf(x, 2) + 0x100_0000 * ByteOf(x, 3) == x
  {
    assert x == 0x100 * (x / 0x100) + x % 0x100;
    assert x / 0x100 == 0x100 * (x / 0x1_0000) + x / 0x100 % 0x100;
    assert x / 0x1_0000 == 0x100 * (x / 0x100_0000) + x / 0x1_0000 % 0x100;
  }

  lemma {:induction false} UnrollAt(addr: Word, c: Command, k: nat, j: nat)
    requires k <= c.len + 1 && j < c.len + 1 - k
    ensures |UnrollFrom(addr, c, k)| == c.len + 1 - k
    ensures UnrollFrom(addr, c, k)[j] == ReadItem(AddrAt(addr, c, j), c.id, k + j == c.len)
    decreases c.len + 1 - k
  {
    hide NextAddr;
    if k < c.len {
      UnrollAt(NextAddr(addr, c.kind, c.len), c, k + 1, if j > 0 then j - 1 else 0);
      if j > 0 {
        AddrShift(addr, c, j - 1);
      }
    }
  }

  lemma {:induction false} AddrShift(addr: Word, c: Command, j: nat)
    ensures AddrAt(NextAddr(addr, c.kind, c.len), c, j) == AddrAt(addr, c, j + 1)
  {
    hide NextAddr;
    if j > 0 {
      AddrShift(addr, c, j - 1);
    }
  }

  /** Memory holds the writes served so far; served and queued writes are the data beats taken,
      each at its burst address; each finished burst ends at its one marked beat, and gives exactly
      one response, in order. */
  lemma WritesAndResponses(mem: map<Word, Byte>, ins: seq<In>)
    requires After(mem, ins).Some?
    ensures var System(s, h) := After(mem, ins).value;
            && s.mem == WriteAll(mem, h.written)
            && h.written + s.wrq == AllItems(h.done) + CurItems(h)
            && (forall b :: b in h.done ==> Finished(b))
            && h.bs + Opt(s.b) + LastIds(s.wrq) == Ids(h.done)
  {
    Always(mem, ins);
  }

  /** The assertion on AWVALID never fails for a master that offers data only with or after its
      address. */
  lemma {:induction false} AssertionHolds(mem: map<Word, Byte>, ins: seq<In>)
    requires After(mem, ins).Some?
    ensures !After(mem, ins).value.s.failed
  {
    Always(mem, ins);
  }

  /** And for other masters, the first data handshake that breaks the rule is the one that fails it. */
  lemma AssertionFailsIff(mem: map<Word, Byte>, ins: seq<In>, i: In)
    requires After(mem, ins).Some? && WFire(After(mem, ins).value.s, i)
    ensures Next(After(mem, ins).value.s, i).failed <==> !Legal(After(mem, ins).value.s, i)
  {
    hide Write32, Read32, Unroll, NextAddr;
    Always(mem, ins);
  }

  // ---------------------------------------------------------------- wrapping bursts

  /** The burst lengths that wrap inside their own block. */
  predicate WrapLen(len: Len) { len in {0, 1, 3, 7, 15} }

  function Block(len: Len): nat { 4 * (len + 1) }

  lemma MaskIsBlock(len: Len)
    requires WrapLen(len)
    ensures WrapMask(len) + 1 == Block(len)
  {
  }

  function Mod(x: nat, m: nat): nat
    requires m > 0
  {
    x % m
  }

  lemma Over(base: nat, q: nat, o: nat, block: nat)
    requires o < block && 4 <= block && base == q * block
    ensures Mod(base + o, block) == o
    ensures Mod(base + o + 4, block) == if o + 4 < block then o + 4 else o + 4 - block
  {
    DivUnique(base + o, q, block, o);
    if o + 4 < block {
      DivUnique(base + o + 4, q, block, o + 4);
    } else {
      assert (q + 1) * block == base + block;
      DivUnique(base + o + 4, q + 1, block, o + 4 - block);
    }
  }

  lemma ModOf(m: nat, block: nat) returns (base: nat, q: nat)
    requires block > 0
    ensures m == base + Mod(m, block) && base == q * block && Mod(m, block) < block
  {
    q := m / block;
    base := q * block;
  }

  /** Stepping round a block and stepping the offset are the same. */
  lemma Rotate(base: nat, q: nat, m: nat, block: nat)
    requires 4 <= block && base == q * block
    ensures var v := base + Mod(m, block);
            Mod(v, block) == Mod(m, block) && Mod(v + 4, block) == Mod(m + 4, block)
  {
    hide Mod;
    var b, r := ModOf(m, block);
    Over(base, q, Mod(m, block), block);
    Over(b, r, Mod(m, block), block);
  }

  lemma AddrAtWrap(addr: Word, c: Command, k: nat)
    requires c.kind == WrapBurst && WrapLen(c.len)
    ensures var v, block := AddrAt(addr, c, k), Block(c.len);
            AddrAt(addr, c, k + 1) == (v - Mod(v, block)) + Mod(v + 4, block)
  {
    hide NextAddr, WrapMask, Block, WrapLen, Mod;
    MaskIsBlock(c.len);
    NextAtWrap(AddrAt(addr, c, k), c.len, Block(c.len));
  }

  lemma NextAtWrap(v: Word, len: Len, block: nat)
    requires WrapMask(len) + 1 == block
    ensures NextAddr(v, WrapBurst, len) == (v - Mod(v, block)) + Mod(v + 4, block)
  {
    hide WrapMask;
  }

  lemma AtZero(addr: Word, c: Command)
    ensures AddrAt(addr, c, 0) == addr
  {
  }

  /** Beat `k` of a wrapping burst, by one formula: `o` is the offset in the block at `base`. */
  lemma {:induction false} WrapAddr(c: Command, k: nat, block: nat, base: nat, q: nat, addr: Word, o: nat)
    requires c.kind == WrapBurst && WrapLen(c.len) && block == Block(c.len) && block >= 4
    requires base == q * block && o < block && addr == base + o
    ensures AddrAt(addr, c, k) == base + Mod(o + 4 * k, block)
  {
    hide Block, WrapLen, AddrAt, Mod;
    if k == 0 {
      AtZero(addr, c);
      Over(0, 0, o, block);
    } else {
      WrapAddr(c, k - 1, block, base, q, addr, o);
      AddrAtWrap(addr, c, k - 1);
      Rotate(base, q, o + 4 * (k - 1), block);
    }
  }

  /** A wrapping burst of 1, 2, 4, 8 or 16 beats, from any address, visits each word `j` of the aligned
      block it starts in exactly once: at beat `j - first`, counted round the block. */
  lemma {:induction false} WrapVisitsOnce(c: Command, j: nat, k: nat)
    requires c.kind == WrapBurst && WrapLen(c.len) && j <= c.len && k <= c.len
    ensures var (n, word) := (c.len + 1, c.addr / 4);
            var first := word % n;
            AddrAt(WordAddr(c.addr), c, k) == 4 * (word - first + j)
            <==> k == if j >= first then j - first else j + n - first
  {
    hide AddrAt, WordAddr, WrapLen, Mod;
    var n := c.len + 1;
    var q, byte := BlockOf(c.addr, n);
    var first, base := c.addr / 4 % n, q * (4 * n);
    WordInBlock(c.addr, n, q, first, byte, base);
    WrapIs(c, k, n, base, q, first);
    Once(first + k, n);
  }

  /** Every address lies in one word of one block. */
  lemma BlockOf(addr: nat, n: nat) returns (q: nat, byte: nat)
    requires n > 0
    ensures var (word, first) := (addr / 4, addr / 4 % n);
            addr == q * (4 * n) + 4 * first + byte && byte < 4 && q * (4 * n) == 4 * (word - first) && first < n
  {
    byte := addr % 4;
    q := addr / 4 / n;
    assert addr / 4 == q * n + addr / 4 % n;
    assert 4 * (q * n) == q * (4 * n);
  }

  lemma WrapIs(c: Command, k: nat, n: nat, base: nat, q: nat, first: nat)
    requires c.kind == WrapBurst && WrapLen(c.len) && n == c.len + 1
    requires base == q * (4 * n) && first < n && WordAddr(c.addr) == base + 4 * first
    ensures AddrAt(WordAddr(c.addr), c, k) == base + 4 * Mod(first + k, n)
  {
    assert 4 * n == Block(c.len);
    hide AddrAt, WordAddr, Mod, WrapLen, Block;
    WrapAddr(c, k, 4 * n, base, q, WordAddr(c.addr), 4 * first);
    FourTimes(first + k, n);
    assert 4 * first + 4 * k == 4 * (first + k);
  }

  lemma WordInBlock(a: Word, n: nat, q: nat, first: nat, byte: nat, base: nat)
    requires base == q * (4 * n) && a == base + 4 * first + byte && byte < 4
    ensures WordAddr(a) == base + 4 * first
  {
    assert base == 4 * (q * n);
    DivUnique(a, q * n + first, 4, byte);
  }

  lemma FourTimes(x: nat, n: nat)
    requires n > 0
    ensures Mod(4 * x, 4 * n) == 4 * Mod(x, n)
  {
    var q, r := x / n, x % n;
    assert x == n * q + r;
    assert n * q == q * n && 4 * (q * n) == q * (4 * n);
    DivUnique(4 * x, q, 4 * n, 4 * r);
  }

  lemma Once(x: nat, n: nat)
    requires x < 2 * n
    ensures Mod(x, n) == if x < n then x else x - n
  {
    if x < n { DivUnique(x, 0, n, x); } else { DivUnique(x, 1, n, x - n); }
  }
}
