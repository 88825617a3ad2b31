/** The read side of the AXI width adapter towards a narrower bus: a burst is asked for in as many
    master bursts as it needs, and the narrow beats are merged into wide ones. */
module MergeModel {
  import opened Options
  import opened Words
  import opened Skid
  import A = AdapterModel

  /** `strb` and `segs` of the geometry are the bytes of a narrow beat and the narrow beats of a
      wide one. */
  type Geometry = A.Geometry

  datatype MasterAr = MasterAr(id: nat, addr: Word, len: Len, size: nat, attributes: nat)
  datatype NarrowBeat = NarrowBeat(data: nat, resp: nat)
  datatype WideBeat = WideBeat(id: nat, data: seq<nat>, resp: nat, last: bool)

  datatype Fsm = Fsm(busy: bool, id: nat, addr: Word, data: seq<nat>, resp: nat, burst: Len, size: nat,
                     mBurst: Len, mSize: nat, attributes: nat, arReady: bool, mAr: Option<MasterAr>, rReady: bool)

  datatype In = In(ar: Option<A.Ar>, mArReady: bool, r: Option<NarrowBeat>, take: bool)

  function Zeros(n: nat): (z: seq<nat>)
    ensures |z| == n && forall k :: 0 <= k < n ==> z[k] == 0
  {
    if n == 0 then [] else Zeros(n - 1) + [0]
  }

  function Reset(g: Geometry): Fsm { Fsm(false, 0, 0, Zeros(g.segs), 0, 0, 0, 0, 0, 0, false, None, false) }

  // ---------------------------------------------------------------- shape of a burst

  /** Bytes the address moves on with each narrow beat, and the narrow beats of a full wide beat. */
  datatype Shape = Shape(step: nat, ratio: nat) {
    predicate Valid() { step > 0 && ratio > 0 }
  }

  function ShapeOf(g: Geometry, size: nat): (sh: Shape)
    requires g.Valid()
    ensures size > 0 ==> sh.Valid()
  {
    if size > g.strb then Shape(g.strb, size / g.strb) else Shape(size, 1)
  }

  /** Beats as AXI has them: a multiple of the narrow bus that divides the wide one, or a part of
      the narrow bus; the ratio divides the 256 beats of the longest burst. */
  predicate WellSized(g: Geometry, size: nat)
    requires g.Valid()
  {
    var sh := ShapeOf(g, size);
    && size > 0 && size == sh.step * sh.ratio && g.strb == sh.step * (g.strb / sh.step)
    && (size > g.strb ==> g.segs == sh.ratio * (g.segs / sh.ratio) && 256 == sh.ratio * (256 / sh.ratio))
  }

  /** Narrow beats of the first wide beat that lie before the start address. */
  function Offset(sh: Shape, addr: Word): (r: nat)
    requires sh.Valid()
    ensures r < sh.ratio
  {
    addr / sh.step % sh.ratio
  }

  /** The longest master burst that ends with a wide beat: a multiple of the ratio plus the low part.
      Shifts are multiplications, and the two parts share no bits. */
  function Limited(beats: Len, ratio: nat, low: nat): Len {
    ((if beats * ratio >= 256 then 255 * ratio % 256 else beats * ratio) + low) % 256
  }

  // ---------------------------------------------------------------- wires

  predicate ArFire(f: Fsm, i: In) { !f.busy && f.arReady && i.ar.Some? }
  predicate RFire(f: Fsm, i: In) { f.rReady && i.r.Some? }

  function NextAddr(f: Fsm): Word {
    var x := (f.addr + f.mSize) % W32;
    if f.mSize == 0 then x else x - x % f.mSize
  }

  predicate Crosses(f: Fsm) { f.size > 0 && NextAddr(f) / f.size % 2 != f.addr / f.size % 2 }

  predicate Ends(f: Fsm) { f.mBurst == 0 && f.burst == 0 }

  function Placed(g: Geometry, f: Fsm, r: NarrowBeat): seq<nat>
    requires g.Valid()
  {
    var j := A.Seg(g, f.addr);
    if j < |f.data| then f.data[j := r.data] else f.data
  }

  function Resp(f: Fsm, r: NarrowBeat): nat { if r.resp != 0 then r.resp else f.resp }

  function Emit(g: Geometry, f: Fsm, i: In): Option<WideBeat>
    requires g.Valid()
  {
    if f.busy && RFire(f, i) && (Crosses(f) || Ends(f)) then
      Some(WideBeat(f.id, Placed(g, f, i.r.value), Resp(f, i.r.value), Ends(f)))
    else None
  }

  function Start(g: Geometry, f: Fsm, ar: A.Ar): Fsm
    requires g.Valid() && ar.size > 0
  {
    var sh := ShapeOf(g, ar.size);
    var len := if ar.size > g.strb then Limited(ar.len, sh.ratio, sh.ratio - 1 - Offset(sh, ar.addr)) else ar.len;
    f.(busy := true, id := ar.id, addr := ar.addr, resp := 0, burst := ar.len, size := ar.size, mBurst := len,
       mSize := sh.step, attributes := ar.attributes, arReady := false,
       mAr := Some(MasterAr(ar.id, ar.addr, len, sh.step, ar.attributes)), rReady := false)
  }

  /** A narrow beat is taken; at the end of a master burst the next one is asked for. */
  function Take(g: Geometry, f: Fsm, early: bool, i: In): Fsm
    requires g.Valid() && i.r.Some?
  {
    var beats := if Crosses(f) then Less(f.burst) else f.burst;
    var ratio := ShapeOf(g, f.size).ratio;
    var n := f.(data := if Crosses(f) then Zeros(g.segs) else Placed(g, f, i.r.value), resp := Resp(f, i.r.value),
                burst := beats, addr := NextAddr(f), mBurst := Less(f.mBurst), arReady := false,
                mAr := if i.mArReady then None else f.mAr, rReady := early && f.mAr.None?);
    if f.mBurst != 0 then n
    else
      var len := if beats * ratio >= 256 then 255 else (beats * ratio + (ratio - 1)) % 256;
      if f.burst == 0 then n.(busy := false, mBurst := len, arReady := f.mAr.None?, rReady := false)
      else
        n.(mBurst := len, rReady := false, mAr := Some(MasterAr(f.id, NextAddr(f), len, f.mSize, f.attributes)))
  }

  function NextFsm(g: Geometry, f: Fsm, early: bool, i: In): Fsm
    requires g.Valid()
  {
    if !f.busy then
      if ArFire(f, i) && i.ar.value.size > 0 then Start(g, f, i.ar.value)
      else f.(resp := 0, arReady := f.mAr.None?, mAr := if i.mArReady then None else f.mAr, rReady := false)
    else if RFire(f, i) then Take(g, f, early, i)
    else f.(arReady := false, mAr := if i.mArReady then None else f.mAr, rReady := early && f.mAr.None?)
  }

  datatype State = State(f: Fsm, k: Slots<WideBeat>)

  function Next(g: Geometry, s: State, i: In): State
    requires g.Valid()
  {
    var beat := Emit(g, s.f, i);
    State(NextFsm(g, s.f, Early(s.k, beat.Some?, i.take), i), NextSlots(s.k, beat, i.take))
  }

  // ---------------------------------------------------------------- history

  /** A burst: the narrow beats taken for it, the wide beats it has given, and its master bursts. */
  datatype Burst = Burst(ar: A.Ar, narrows: seq<NarrowBeat>, count: nat, mars: seq<MasterAr>)

  datatype Hist = Hist(done: seq<Burst>, cur: Option<Burst>, sent: seq<MasterAr>,
                       produced: seq<WideBeat>, delivered: seq<WideBeat>)

  /** The master burst asked for this clock, if any. */
  function Asks(g: Geometry, f: Fsm, early: bool, i: In): seq<MasterAr>
    requires g.Valid()
  {
    if ArFire(f, i) || (f.busy && RFire(f, i) && f.mBurst == 0 && f.burst != 0) then Opt(NextFsm(g, f, early, i).mAr) else []
  }

  function Grown(g: Geometry, b: Burst, f: Fsm, early: bool, i: In): Burst
    requires g.Valid()
  {
    Burst(b.ar, if RFire(f, i) then b.narrows + [i.r.value] else b.narrows,
          if Emit(g, f, i).Some? then b.count + 1 else b.count, b.mars + Asks(g, f, early, i))
  }

  function Observe(g: Geometry, h: Hist, s: State, i: In): Hist
    requires g.Valid()
  {
    var early := Early(s.k, Emit(g, s.f, i).Some?, i.take);
    var ends := s.f.busy && !NextFsm(g, s.f, early, i).busy;
    Hist(
      if ends && h.cur.Some? then h.done + [Grown(g, h.cur.value, s.f, early, i)] else h.done,
      if ArFire(s.f, i) then Some(Burst(i.ar.value, [], 0, Asks(g, s.f, early, i)))
      else if ends || h.cur.None? then None else Some(Grown(g, h.cur.value, s.f, early, i)),
      if s.f.mAr.Some? && i.mArReady then h.sent + [s.f.mAr.value] else h.sent,
      h.produced + Opt(Emit(g, s.f, i)),
      h.delivered + Leaves(s.k, i.take))
  }

  predicate Legal(g: Geometry, s: State, i: In)
    requires g.Valid()
  {
    ArFire(s.f, i) ==> WellSized(g, i.ar.value.size)
  }

  datatype System = System(s: State, h: Hist)

  function After(g: Geometry, ins: seq<In>): Option<System>
    requires g.Valid()
  {
    if ins == [] then Some(System(State(Reset(g), Slots(false, None, None)), Hist([], None, [], [], [])))
    else
      var i := ins[|ins| - 1];
      match After(g, ins[..|ins| - 1])
      case None => None
      case Some(System(s, h)) =>
        if Legal(g, s, i) then Some(System(Next(g, s, i), Observe(g, h, s, i))) else None
  }

  // ---------------------------------------------------------------- what a burst stands for

  /** The byte address narrow beat `t` belongs to: the start address, then whole steps. */
  function BeatAddr(sh: Shape, addr: Word, t: nat): nat
    requires sh.Valid()
  {
    if t == 0 then addr else (addr / sh.step + t) * sh.step
  }

  /** Narrow beats before wide beat `i`: whole wide beats, less what lies before the start. */
  function FirstOf(sh: Shape, addr: Word, i: nat): int
    requires sh.Valid()
  {
    if i == 0 then 0 else i * sh.ratio - Offset(sh, addr)
  }

  /** Narrow beats in the whole burst. */
  function Total(sh: Shape, ar: A.Ar): int
    requires sh.Valid()
  {
    FirstOf(sh, ar.addr, ar.len + 1)
  }

  /** The narrow beats `lo` to `hi`, each in the segment of its address, over zeros. */
  function Merged(g: Geometry, b: Burst, lo: nat, hi: nat): (d: seq<nat>)
    requires g.Valid() && b.ar.size > 0
    ensures |d| == g.segs
    decreases hi
  {
    if hi <= lo then Zeros(g.segs)
    else
      var d := Merged(g, b, lo, hi - 1);
      var data := if hi - 1 < |b.narrows| then b.narrows[hi - 1].data else 0;
      d[A.Seg(g, BeatAddr(ShapeOf(g, b.ar.size), b.ar.addr, hi - 1)) := data]
  }

  /** The last error among the first `n` narrow beats, or none. */
  function LastError(narrows: seq<NarrowBeat>, n: nat): nat
    requires n <= |narrows|
  {
    if n == 0 then 0 else if narrows[n - 1].resp != 0 then narrows[n - 1].resp else LastError(narrows, n - 1)
  }

  function BeatOf(g: Geometry, b: Burst, i: nat): WideBeat
    requires g.Valid() && b.ar.size > 0
  {
    var sh := ShapeOf(g, b.ar.size);
    var lo, hi := FirstOf(sh, b.ar.addr, i), FirstOf(sh, b.ar.addr, i + 1);
    if 0 <= lo <= hi <= |b.narrows| then
      WideBeat(b.ar.id, Merged(g, b, lo, hi), LastError(b.narrows, hi), i == b.ar.len)
    else WideBeat(b.ar.id, [], 0, false)
  }

  function BeatsOf(g: Geometry, b: Burst, n: nat): (r: seq<WideBeat>)
    requires g.Valid() && b.ar.size > 0
    ensures |r| == n
  {
    if n == 0 then [] else BeatsOf(g, b, n - 1) + [BeatOf(g, b, n - 1)]
  }

  /** Beats asked for by master bursts. */
  function Covered(mars: seq<MasterAr>): nat {
    if mars == [] then 0 else Covered(mars[..|mars| - 1]) + mars[|mars| - 1].len + 1
  }

  function AllBeats(g: Geometry, bursts: seq<Burst>): seq<WideBeat>
    requires g.Valid()
  {
    if bursts == [] then []
    else
      var b := bursts[|bursts| - 1];
      AllBeats(g, bursts[..|bursts| - 1]) + if b.ar.size > 0 then BeatsOf(g, b, b.count) else []
  }

  function AllMars(bursts: seq<Burst>): seq<MasterAr> {
    if bursts == [] then [] else AllMars(bursts[..|bursts| - 1]) + bursts[|bursts| - 1].mars
  }
}
