/** The read side of the AXI width adapter towards a bus that is as wide or wider: its state
    machine, and the bursts it serves. The output stage is in module Skid. */
module AdapterModel {
  import opened Options
  import opened Words
  import opened Skid

  /** Bytes in a narrow beat, narrow beats in a wide beat, and half the wide beats in the address
      space; all powers of two in the hardware, which the proofs do not need. */
  datatype Geometry = Geometry(strb: nat, segs: nat, half: nat, convert: bool) {
    predicate Valid() { 0 < strb <= 128 && 0 < segs <= 128 && 0 < half }
    function Wide(): nat { strb * segs }
    /** The wide beats fill the address space, an even number of them. */
    predicate Spans() { Wide() * (2 * half) == W32 }
  }

  /** A read address as the narrow master gives it; `size` is the bytes of a beat. */
  datatype Ar = Ar(id: nat, addr: Word, len: Len, size: nat, modifiable: bool, attributes: nat)
  datatype MasterAr = MasterAr(id: nat, addr: Word, len: Len, size: nat, attributes: nat)

  datatype WideBeat = WideBeat(slices: seq<nat>, resp: nat, last: bool)
  datatype NarrowBeat = NarrowBeat(id: nat, data: nat, resp: nat, last: bool)

  const NO_BEAT := WideBeat([], 0, false)

  datatype Phase = Idle | Data | Read | Split

  datatype Fsm = Fsm(phase: Phase, id: nat, addr: Word, held: WideBeat, burst: Len, size: nat,
                     arReady: bool, mAr: Option<MasterAr>, rReady: bool)

  const RESET := Fsm(Idle, 0, 0, NO_BEAT, 0, 0, false, None, false)

  datatype In = In(ar: Option<Ar>, mArReady: bool, r: Option<WideBeat>, take: bool)

  // ---------------------------------------------------------------- wires

  /** The narrow beat an address selects in its wide beat, and the wide beat's number. */
  function Seg(g: Geometry, addr: nat): nat
    requires g.Valid()
  {
    (addr / g.strb) % g.segs
  }
  function WideOf(g: Geometry, addr: nat): nat
    requires g.Valid()
  {
    assert g.Wide() > 0 by { MulGap(g.strb, g.segs); }
    addr / g.Wide()
  }

  function Slice(w: WideBeat, j: nat): nat { if j < |w.slices| then w.slices[j] else 0 }

  predicate ArFire(f: Fsm, i: In) { f.phase.Idle? && f.arReady && i.ar.Some? }
  predicate RFire(f: Fsm, i: In) { f.rReady && i.r.Some? }

  /** Full-width bursts that may be modified are repacked into full-width wide bursts. */
  predicate Converts(g: Geometry, ar: Ar) { g.segs > 1 && g.convert && ar.modifiable && ar.size == g.strb }

  /** An eight-bit register; AdapterProofs.ConvertedLenCounts shows that nothing is cut off. */
  function ConvertedLen(g: Geometry, ar: Ar): Len
    requires g.Valid()
  {
    (ar.len + Seg(g, ar.addr)) / g.segs % 256
  }

  /** The address sent on: repacked bursts count wide beats, others are passed through. */
  function MasterArOf(g: Geometry, ar: Ar): MasterAr
    requires g.Valid()
  {
    if Converts(g, ar) then MasterAr(ar.id, ar.addr, ConvertedLen(g, ar), g.Wide(), ar.attributes)
    else MasterAr(ar.id, ar.addr, ar.len, ar.size, ar.attributes)
  }

  function NextAddr(f: Fsm): Word { (f.addr + f.size) % W32 }

  /** The address bit that counts wide beats changes with the next beat. */
  predicate Crosses(g: Geometry, f: Fsm)
    requires g.Valid()
  {
    WideOf(g, NextAddr(f)) % 2 != WideOf(g, f.addr) % 2
  }

  /** The beat offered to the output stage. */
  function Emit(g: Geometry, f: Fsm, ready: bool, i: In): Option<NarrowBeat>
    requires g.Valid()
  {
    match f.phase
    case Idle => None
    case Data =>
      if RFire(f, i) then Some(NarrowBeat(f.id, Slice(i.r.value, Seg(g, f.addr)), i.r.value.resp, i.r.value.last)) else None
    case Read =>
      if RFire(f, i) then Some(NarrowBeat(f.id, Slice(i.r.value, Seg(g, f.addr)), i.r.value.resp, f.burst == 0)) else None
    case Split =>
      if ready then Some(NarrowBeat(f.id, Slice(f.held, Seg(g, f.addr)), f.held.resp, f.burst == 0)) else None
  }

  /** The state machine after a clock; `ready` and `early` come from the output stage. */
  function NextFsm(g: Geometry, f: Fsm, ready: bool, early: bool, i: In): Fsm
    requires g.Valid()
  {
    var pending := if i.mArReady then None else f.mAr;
    var free := f.mAr.None?;
    match f.phase
    case Idle =>
      if ArFire(f, i) then
        var ar := i.ar.value;
        f.(phase := if Converts(g, ar) then Read else Data, id := ar.id, addr := ar.addr, burst := ar.len, size := ar.size,
           arReady := false, mAr := Some(MasterArOf(g, ar)), rReady := early)
      else f.(arReady := free, mAr := pending, rReady := false)
    case Data =>
      if RFire(f, i) then
        if i.r.value.last then f.(phase := Idle, addr := NextAddr(f), arReady := free, mAr := pending, rReady := false)
        else f.(addr := NextAddr(f), arReady := false, mAr := pending, rReady := early)
      else f.(arReady := false, mAr := pending, rReady := early)
    case Read =>
      if RFire(f, i) then
        var n := f.(held := i.r.value, burst := Less(f.burst), addr := NextAddr(f), arReady := false, mAr := pending);
        if f.burst == 0 then n.(phase := Idle, arReady := free, rReady := false)
        else if Crosses(g, f) then n.(rReady := early)
        else n.(phase := Split, rReady := false)
      else f.(arReady := false, mAr := pending, rReady := early)
    case Split =>
      if ready then
        var n := f.(burst := Less(f.burst), addr := NextAddr(f), arReady := false, mAr := pending, rReady := false);
        if f.burst == 0 then n.(phase := Idle, arReady := free)
        else if Crosses(g, f) then n.(phase := Read, rReady := early)
        else n
      else f.(arReady := false, mAr := pending, rReady := false)
  }

  datatype State = State(f: Fsm, k: Slots<NarrowBeat>)

  function Next(g: Geometry, s: State, i: In): State
    requires g.Valid()
  {
    var beat := Emit(g, s.f, s.k.ready, i);
    State(NextFsm(g, s.f, s.k.ready, Early(s.k, beat.Some?, i.take), i), NextSlots(s.k, beat, i.take))
  }

  // ---------------------------------------------------------------- history

  /** A burst, the wide beats taken for it and how many narrow beats it has been given. */
  datatype Burst = Burst(ar: Ar, wides: seq<WideBeat>, count: nat)

  datatype Hist = Hist(done: seq<Burst>, cur: Option<Burst>, sent: seq<MasterAr>,
                       produced: seq<NarrowBeat>, delivered: seq<NarrowBeat>)

  const NOTHING := Hist([], None, [], [], [])

  /** The burst in service after this clock's beat. */
  function Grown(b: Burst, g: Geometry, s: State, i: In): Burst
    requires g.Valid()
  {
    Burst(b.ar, if RFire(s.f, i) then b.wides + [i.r.value] else b.wides,
          if Emit(g, s.f, s.k.ready, i).Some? then b.count + 1 else b.count)
  }

  function Observe(g: Geometry, h: Hist, s: State, i: In): Hist
    requires g.Valid()
  {
    var ends := !s.f.phase.Idle? && Next(g, s, i).f.phase.Idle?;
    Hist(
      if ends && h.cur.Some? then h.done + [Grown(h.cur.value, g, s, i)] else h.done,
      if ArFire(s.f, i) then Some(Burst(i.ar.value, [], 0))
      else if ends || h.cur.None? then None else Some(Grown(h.cur.value, g, s, i)),
      if s.f.mAr.Some? && i.mArReady then h.sent + [s.f.mAr.value] else h.sent,
      h.produced + Opt(Emit(g, s.f, s.k.ready, i)),
      h.delivered + Leaves(s.k, i.take))
  }

  /** A wide slave marks exactly the last beat of a burst, where the adapter looks at the mark: in
      a burst it passes through. */
  predicate Legal(s: State, h: Hist, i: In) {
    s.f.phase.Data? && RFire(s.f, i) && h.cur.Some? ==>
      (i.r.value.last <==> |h.cur.value.wides| == h.cur.value.ar.len)
  }

  datatype System = System(s: State, h: Hist)

  function After(g: Geometry, ins: seq<In>): Option<System>
    requires g.Valid()
  {
    if ins == [] then Some(System(State(RESET, Slots(false, None, None)), NOTHING))
    else
      var i := ins[|ins| - 1];
      match After(g, ins[..|ins| - 1])
      case None => None
      case Some(System(s, h)) =>
        if Legal(s, h, i) then Some(System(Next(g, s, i), Observe(g, h, s, i))) else None
  }

  // ---------------------------------------------------------------- what a burst stands for

  /** The byte address of narrow beat `k`, and the wide beat of the burst that holds it. */
  function BeatAddr(ar: Ar, k: nat): nat { ar.addr + k * ar.size }

  function WideIndex(g: Geometry, ar: Ar, k: nat): int
    requires g.Valid()
  {
    if Converts(g, ar) then WideOf(g, BeatAddr(ar, k)) - WideOf(g, ar.addr) else k
  }

  function BeatOf(g: Geometry, b: Burst, k: nat): NarrowBeat
    requires g.Valid()
  {
    var w := WideIndex(g, b.ar, k);
    var wide := if 0 <= w < |b.wides| then b.wides[w] else NO_BEAT;
    NarrowBeat(b.ar.id, Slice(wide, Seg(g, BeatAddr(b.ar, k))), wide.resp, k == b.ar.len)
  }

  function BeatsOf(g: Geometry, b: Burst, n: nat): (r: seq<NarrowBeat>)
    requires g.Valid()
    ensures |r| == n
  {
    if n == 0 then [] else BeatsOf(g, b, n - 1) + [BeatOf(g, b, n - 1)]
  }

  function AllBeats(g: Geometry, bursts: seq<Burst>): seq<NarrowBeat>
    requires g.Valid()
  {
    if bursts == [] then []
    else
      var b := bursts[|bursts| - 1];
      AllBeats(g, bursts[..|bursts| - 1]) + BeatsOf(g, b, b.count)
  }

  function AllSent(g: Geometry, bursts: seq<Burst>): seq<MasterAr>
    requires g.Valid()
  {
    if bursts == [] then []
    else AllSent(g, bursts[..|bursts| - 1]) + [MasterArOf(g, bursts[|bursts| - 1].ar)]
  }
}
