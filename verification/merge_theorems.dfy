/** What the width adapter towards a narrower bus keeps over every run. */
module MergeTheorems {
  import opened Options
  import opened Words
  import opened Skid
  import A = AdapterModel
  import opened MergeModel
  import opened MergeProofs

  predicate Handshakes(s: State) {
    && (s.f.rReady ==> s.k.ready && s.f.busy && s.f.mAr.None?)
    && (s.f.arReady ==> s.f.mAr.None? && !s.f.busy)
  }

  ghost predicate InService(g: Geometry, s: State, h: Hist)
    requires g.Valid()
  {
    && (forall b :: b in h.done ==> Complete(g, b))
    && (h.cur.Some? <==> s.f.busy)
    && (if h.cur.Some? then Serving(g, s.f, h.cur.value) else s.f.data == Zeros(g.segs))
  }

  predicate Beats(g: Geometry, h: Hist)
    requires g.Valid()
  {
    h.produced == AllBeats(g, h.done + Opt(h.cur))
  }

  predicate Sent(s: State, h: Hist) { h.sent + Opt(s.f.mAr) == AllMars(h.done + Opt(h.cur)) }

  predicate Output(s: State, h: Hist) { SlotsInv(s.k) && h.produced == h.delivered + Held(s.k) }

  ghost predicate Inv(g: Geometry, x: System)
    requires g.Valid()
  {
    Handshakes(x.s) && InService(g, x.s, x.h) && Beats(g, x.h) && Sent(x.s, x.h) && Output(x.s, x.h)
  }

  lemma HandshakesStep(g: Geometry, s: State, i: In)
    requires g.Valid() && Handshakes(s)
    ensures Handshakes(Next(g, s, i))
    ensures Emit(g, s.f, i).Some? ==> s.k.ready
    ensures !s.f.busy ==> !RFire(s.f, i)
  {
    hide Crosses, Placed, Resp, NextAddr, ShapeOf, Limited, Offset;
  }

  lemma IdleStep(g: Geometry, f: Fsm, early: bool, i: In)
    requires g.Valid() && !f.busy && (ArFire(f, i) ==> i.ar.value.size > 0)
    ensures var n := NextFsm(g, f, early, i);
            (n.busy <==> ArFire(f, i)) && (!n.busy ==> n.data == f.data) && Emit(g, f, i).None?
  {
    hide ShapeOf, Limited, Offset;
  }

  lemma InServiceStep(g: Geometry, s: State, h: Hist, i: In)
    requires g.Valid() && g.Spans() && InService(g, s, h) && Legal(g, s, i)
    ensures InService(g, Next(g, s, i), Observe(g, h, s, i))
  {
    var early := Early(s.k, Emit(g, s.f, i).Some?, i.take);
    if h.cur.Some? {
      hide Serving, Complete, Emit, NextFsm, Grown, Asks, A.Geometry.Spans, Early, NextSlots;
      BurstStep(g, s.f, early, h.cur.value, i);
    } else {
      IdleStep(g, s.f, early, i);
      if ArFire(s.f, i) {
        StartServes(g, s.f, early, i);
      }
      hide Serving, Complete, Emit, NextFsm, Grown, Asks, A.Geometry.Spans, Early, NextSlots, WellSized;
    }
  }

  lemma Snoc(g: Geometry, done: seq<Burst>, b: Burst)
    requires g.Valid()
    ensures AllBeats(g, done + [b]) == AllBeats(g, done) + if b.ar.size > 0 then BeatsOf(g, b, b.count) else []
    ensures AllMars(done + [b]) == AllMars(done) + b.mars
  {
    hide BeatsOf;
    assert (done + [b])[..|done|] == done;
  }

  /** The burst in service gives the wide beat of this clock, if any. */
  lemma GrownBeats(g: Geometry, f: Fsm, early: bool, b: Burst, i: In)
    requires g.Valid() && g.Spans() && Serving(g, f, b)
    ensures var b2 := Grown(g, b, f, early, i);
            && b2.ar == b.ar && b.ar.size > 0
            && BeatsOf(g, b2, b2.count) == BeatsOf(g, b, b.count) + Opt(Emit(g, f, i))
  {
    hide Serving, Complete, Emit, NextFsm, Within, BeatOf, ShapeOf, A.Geometry.Spans, Asks;
    var b2 := Grown(g, b, f, early, i);
    assert b.ar.size > 0 by { SizeKnown(g, f, b); }
    BurstStep(g, f, early, b, i);
    TakenCovers(g, f, b);
    assert b2.count == b.count + if Emit(g, f, i).Some? then 1 else 0;
    hide Grown;
    BeatsStay(g, b, b2, b.count);
  }

  lemma SizeKnown(g: Geometry, f: Fsm, b: Burst)
    requires g.Valid() && Serving(g, f, b)
    ensures b.ar.size > 0
  {
  }

  /** The bursts of the history after this clock: the one in service grown, or a new one. */
  lemma NextBursts(g: Geometry, s: State, h: Hist, i: In)
    requires g.Valid() && (h.cur.Some? <==> s.f.busy) && Legal(g, s, i)
    ensures var early, h2 := Early(s.k, Emit(g, s.f, i).Some?, i.take), Observe(g, h, s, i);
            h2.done + Opt(h2.cur)
            == if h.cur.Some? then h.done + [Grown(g, h.cur.value, s.f, early, i)]
               else if ArFire(s.f, i) then h.done + [Burst(i.ar.value, [], 0, Asks(g, s.f, early, i))]
               else h.done + Opt(h.cur)
  {
    var early := Early(s.k, Emit(g, s.f, i).Some?, i.take);
    SizePositive(g, s, i);
    if !s.f.busy {
      IdleStep(g, s.f, early, i);
    }
    ArOnlyIdle(s.f, i);
    hide NextFsm, Emit, Grown, Asks, Early, Legal;
  }

  /** What a clock adds to the beats produced and the addresses sent. */
  lemma LogsGrow(g: Geometry, s: State, h: Hist, i: In)
    requires g.Valid()
    ensures var h2 := Observe(g, h, s, i);
            && h2.produced == h.produced + Opt(Emit(g, s.f, i))
            && h2.sent == h.sent + if s.f.mAr.Some? && i.mArReady then Opt(s.f.mAr) else []
  {
    hide Emit, Grown, NextFsm, Asks, Early, Leaves;
  }

  lemma BeatsStep(g: Geometry, s: State, h: Hist, i: In)
    requires g.Valid() && g.Spans() && InService(g, s, h) && Legal(g, s, i) && Beats(g, h)
    ensures Beats(g, Observe(g, h, s, i))
  {
    hide Observe, Serving, Complete, Emit, Grown, BeatsOf, AllBeats, A.Geometry.Spans, Early, Legal, Asks, NextFsm;
    var early := Early(s.k, Emit(g, s.f, i).Some?, i.take);
    NextBursts(g, s, h, i);
    LogsGrow(g, s, h, i);
    if h.cur.Some? {
      ServiceGives(g, s.f, early, h.done, h.cur.value, i);
    } else {
      IdleGives(g, s, early, h.done, i);
      assert h.done + Opt(h.cur) == h.done;
    }
  }

  lemma ServiceGives(g: Geometry, f: Fsm, early: bool, done: seq<Burst>, b: Burst, i: In)
    requires g.Valid() && g.Spans() && Serving(g, f, b)
    ensures AllBeats(g, done + [Grown(g, b, f, early, i)]) == AllBeats(g, done + [b]) + Opt(Emit(g, f, i))
  {
    hide Serving, Emit, Grown, BeatsOf, AllBeats, A.Geometry.Spans;
    GrownBeats(g, f, early, b, i);
    Snoc(g, done, b);
    Snoc(g, done, Grown(g, b, f, early, i));
  }

  lemma IdleGives(g: Geometry, s: State, early: bool, done: seq<Burst>, i: In)
    requires g.Valid() && !s.f.busy && Legal(g, s, i)
    ensures Emit(g, s.f, i).None?
    ensures ArFire(s.f, i) ==> AllBeats(g, done + [Burst(i.ar.value, [], 0, Asks(g, s.f, early, i))]) == AllBeats(g, done)
  {
    hide Emit, BeatsOf, AllBeats, NextFsm, Asks, Legal;
    SizePositive(g, s, i);
    IdleStep(g, s.f, early, i);
    if ArFire(s.f, i) {
      var b := Burst(i.ar.value, [], 0, Asks(g, s.f, early, i));
      Snoc(g, done, b);
      NoBeats(g, b);
    }
  }

  lemma ArOnlyIdle(f: Fsm, i: In)
    ensures f.busy ==> !ArFire(f, i)
  {
  }

  lemma NoBeats(g: Geometry, b: Burst)
    requires g.Valid() && b.ar.size > 0
    ensures BeatsOf(g, b, 0) == []
  {
  }

  /** A master burst is asked for only when the address register is free. */
  lemma AsksOnce(g: Geometry, f: Fsm, early: bool, i: In)
    requires g.Valid() && (f.arReady ==> f.mAr.None?) && (f.rReady ==> f.mAr.None?)
    requires ArFire(f, i) ==> i.ar.value.size > 0
    ensures var n := NextFsm(g, f, early, i);
            (if f.mAr.Some? && i.mArReady then Opt(f.mAr) else []) + Opt(n.mAr) == Opt(f.mAr) + Asks(g, f, early, i)
  {
    hide Crosses, Placed, Resp, NextAddr, ShapeOf, Limited, Offset;
  }

  lemma IdleAsks(g: Geometry, f: Fsm, early: bool, i: In)
    requires g.Valid() && !f.busy && !ArFire(f, i)
    ensures Asks(g, f, early, i) == []
  {
  }

  lemma SentStep(g: Geometry, s: State, h: Hist, i: In)
    requires g.Valid() && Handshakes(s) && (h.cur.Some? <==> s.f.busy) && Legal(g, s, i) && Sent(s, h)
    ensures Sent(Next(g, s, i), Observe(g, h, s, i))
  {
    hide Observe, Emit, AllMars, Early, Legal, NextFsm, Asks, NextSlots, Opt;
    var early := Early(s.k, Emit(g, s.f, i).Some?, i.take);
    SizePositive(g, s, i);
    AsksOnce(g, s.f, early, i);
    LogsGrow(g, s, h, i);
    MarsGrow(g, s, h, i);
    var leaving := if s.f.mAr.Some? && i.mArReady then Opt(s.f.mAr) else [];
    Moves(h.sent, leaving, Opt(NextFsm(g, s.f, early, i).mAr), Opt(s.f.mAr), Asks(g, s.f, early, i));
  }

  lemma Moves<T>(log: seq<T>, leaving: seq<T>, queue2: seq<T>, queue: seq<T>, added: seq<T>)
    requires leaving + queue2 == queue + added
    ensures (log + leaving) + queue2 == (log + queue) + added
  {
    assert (log + leaving) + queue2 == log + (leaving + queue2);
    assert (log + queue) + added == log + (queue + added);
  }

  lemma MarsGrow(g: Geometry, s: State, h: Hist, i: In)
    requires g.Valid() && (h.cur.Some? <==> s.f.busy) && Legal(g, s, i)
    ensures var early, h2 := Early(s.k, Emit(g, s.f, i).Some?, i.take), Observe(g, h, s, i);
            AllMars(h2.done + Opt(h2.cur)) == AllMars(h.done + Opt(h.cur)) + Asks(g, s.f, early, i)
  {
    hide Emit, AllMars, Early, WellSized, AllBeats, NextFsm, Asks, Observe;
    var early := Early(s.k, Emit(g, s.f, i).Some?, i.take);
    var asks := Asks(g, s.f, early, i);
    NextBursts(g, s, h, i);
    if h.cur.Some? {
      Snoc(g, h.done, h.cur.value);
      Snoc(g, h.done, Grown(g, h.cur.value, s.f, early, i));
    } else if ArFire(s.f, i) {
      Snoc(g, h.done, Burst(i.ar.value, [], 0, asks));
      assert h.done + Opt(h.cur) == h.done;
    } else {
      IdleAsks(g, s.f, early, i);
    }
  }

  lemma OutputStep(g: Geometry, s: State, h: Hist, i: In)
    requires g.Valid() && Handshakes(s) && Output(s, h)
    ensures Output(Next(g, s, i), Observe(g, h, s, i))
  {
    hide Emit, NextFsm, Held, Leaves, SlotsInv, NextSlots, Grown, Asks;
    HandshakesStep(g, s, i);
    var beat := Emit(g, s.f, i);
    Conserves(s.k, beat, i.take);
    assert (h.delivered + Held(s.k)) + Opt(beat) == h.delivered + (Held(s.k) + Opt(beat));
    assert h.delivered + (Leaves(s.k, i.take) + Held(NextSlots(s.k, beat, i.take)))
        == (h.delivered + Leaves(s.k, i.take)) + Held(NextSlots(s.k, beat, i.take));
  }

  lemma {:induction false} Always(g: Geometry, ins: seq<In>)
    requires g.Valid() && g.Spans() && After(g, ins).Some?
    ensures Inv(g, After(g, ins).value)
  {
    if ins == [] {
      assert AllMars([]) == [] && AllBeats(g, []) == [];
    } else {
      hide Handshakes, Beats, Sent, Output, Next, Observe, Serving, Complete, WellSized;
      var n := |ins| - 1;
      Always(g, ins[..n]);
      var System(s, h) := After(g, ins[..n]).value;
      HandshakesStep(g, s, ins[n]);
      InServiceStep(g, s, h, ins[n]);
      BeatsStep(g, s, h, ins[n]);
      SentStep(g, s, h, ins[n]);
      OutputStep(g, s, h, ins[n]);
    }
  }

  lemma SizePositive(g: Geometry, s: State, i: In)
    requires g.Valid() && Legal(g, s, i)
    ensures ArFire(s.f, i) ==> i.ar.value.size > 0
  {
  }

  // ---------------------------------------------------------------- main results

  /** Every finished burst: ARLEN + 1 wide beats; the narrow beats taken for it are exactly those
      its address range holds; and its master bursts, of at most 256 beats each, start where the
      ones before them end and together ask for exactly those narrow beats. */
  lemma {:induction false} MasterBurstsTile(g: Geometry, ins: seq<In>, n: nat, j: nat)
    requires g.Valid() && g.Spans() && After(g, ins).Some?
    requires n < |After(g, ins).value.h.done|
    requires j < |After(g, ins).value.h.done[n].mars|
    ensures var b := After(g, ins).value.h.done[n];
            b.ar.size > 0 &&
            var sh := ShapeOf(g, b.ar.size);
            && b.count == b.ar.len + 1
            && |b.narrows| == (b.ar.len + 1) * sh.ratio - Offset(sh, b.ar.addr) == Covered(b.mars)
            && b.mars[j].addr == BeatAddr(sh, b.ar.addr, Covered(b.mars[..j])) % W32
            && b.mars[j].size == sh.step && b.mars[j].id == b.ar.id
  {
    hide After, Beats, Sent, Output, Handshakes, WellSized, ShapeOf, Offset, BeatAddr, Covered;
    Always(g, ins);
    var b := After(g, ins).value.h.done[n];
    assert b in After(g, ins).value.h.done;
  }

  /** The segment of narrow beat `t`. */
  function SegOf(g: Geometry, ar: A.Ar, t: nat): (j: nat)
    requires g.Valid() && ar.size > 0
    ensures j < g.segs
  {
    A.Seg(g, BeatAddr(ShapeOf(g, ar.size), ar.addr, t))
  }

  /** No beat from `lo` to `hi` lies in segment `j`. */
  ghost predicate Elsewhere(g: Geometry, ar: A.Ar, lo: nat, hi: nat, j: nat)
    requires g.Valid() && ar.size > 0
  {
    forall u: nat :: lo <= u < hi ==> SegOf(g, ar, u) != j
  }

  lemma MergedOnce(g: Geometry, b: Burst, lo: nat, hi: nat)
    requires g.Valid() && b.ar.size > 0 && lo < hi <= |b.narrows|
    ensures Merged(g, b, lo, hi) == Merged(g, b, lo, hi - 1)[SegOf(g, b.ar, hi - 1) := b.narrows[hi - 1].data]
  {
  }

  /** A segment of a wide beat holds the one narrow beat of its range that lies there. */
  lemma {:induction false} MergedSegment(g: Geometry, b: Burst, lo: nat, hi: nat, t: nat)
    requires g.Valid() && b.ar.size > 0 && lo <= t < hi <= |b.narrows|
    requires Elsewhere(g, b.ar, t + 1, hi, SegOf(g, b.ar, t))
    ensures Merged(g, b, lo, hi)[SegOf(g, b.ar, t)] == b.narrows[t].data
    decreases hi
  {
    hide SegOf, Merged;
    MergedOnce(g, b, lo, hi);
    if t < hi - 1 {
      assert SegOf(g, b.ar, hi - 1) != SegOf(g, b.ar, t);
      MergedSegment(g, b, lo, hi - 1, t);
    }
  }

  /** And zero where no narrow beat of its range lies. */
  lemma {:induction false} UntouchedSegment(g: Geometry, b: Burst, lo: nat, hi: nat, j: nat)
    requires g.Valid() && b.ar.size > 0 && hi <= |b.narrows| && j < g.segs
    requires Elsewhere(g, b.ar, lo, hi, j)
    ensures Merged(g, b, lo, hi)[j] == 0
    decreases hi
  {
    hide SegOf;
    if lo < hi {
      MergedOnce(g, b, lo, hi);
      hide Merged;
      assert SegOf(g, b.ar, hi - 1) != j;
      UntouchedSegment(g, b, lo, hi - 1, j);
    }
  }

  /** Full-width bursts: the narrow beats of one wide beat lie in different segments. */
  lemma SegmentsDiffer(g: Geometry, ar: A.Ar, i: nat, t: nat, u: nat)
    requires g.Valid() && WellSized(g, ar.size) && ar.size > g.strb
    requires var sh := ShapeOf(g, ar.size);
             FirstOf(sh, ar.addr, i) <= t < u < FirstOf(sh, ar.addr, i + 1)
    ensures SegOf(g, ar, t) != SegOf(g, ar, u)
  {
    var sh := ShapeOf(g, ar.size);
    RatioFits(sh.ratio, g.segs / sh.ratio, g.segs);
    assert u - t < sh.ratio by {
      assert (i + 1) * sh.ratio == i * sh.ratio + sh.ratio;
    }
    assert sh.step == g.strb;
    hide WellSized, BeatAddr, Offset, FirstOf, ShapeOf;
    SegsApart(g, ar, sh, t, u);
  }

  lemma SegIs(g: Geometry, ar: A.Ar, sh: Shape, t: nat)
    requires g.Valid() && ar.size > 0 && sh == ShapeOf(g, ar.size) && sh.step == g.strb
    ensures SegOf(g, ar, t) == (ar.addr / sh.step + t) % g.segs
  {
    hide BeatAddr, ShapeOf;
    var r := BeatForm(sh, ar.addr, t);
  }

  lemma SegsApart(g: Geometry, ar: A.Ar, sh: Shape, t: nat, u: nat)
    requires g.Valid() && ar.size > 0 && sh == ShapeOf(g, ar.size) && sh.step == g.strb && t < u < t + g.segs
    ensures SegOf(g, ar, t) != SegOf(g, ar, u)
  {
    hide SegOf, ShapeOf;
    SegIs(g, ar, sh, t);
    SegIs(g, ar, sh, u);
    Apart(ar.addr / sh.step + t, ar.addr / sh.step + u, g.segs);
  }

  lemma Apart(x: nat, y: nat, n: nat)
    requires x < y < x + n
    ensures x % n != y % n
  {
    var v, k := x % n, x / n;
    assert x == k * n + v;
    if v + (y - x) < n {
      DivUnique(y, k, n, v + (y - x));
    } else {
      assert (k + 1) * n == k * n + n;
      DivUnique(y, k + 1, n, v + (y - x) - n);
    }
  }

  lemma {:induction false} BeatsOfAt(g: Geometry, b: Burst, n: nat, k: nat)
    requires g.Valid() && b.ar.size > 0 && k < n
    ensures BeatsOf(g, b, n)[k] == BeatOf(g, b, k)
  {
    if k < n - 1 {
      BeatsOfAt(g, b, n - 1, k);
    }
  }

  /** Wide beat `k` of a finished full-width burst: segment by segment the narrow beat read at that
      address, the last error so far as its response, and marked last exactly at the end. */
  lemma {:induction false} WideBeatsAreMerged(g: Geometry, ins: seq<In>, n: nat, k: nat, t: nat)
    requires g.Valid() && g.Spans() && After(g, ins).Some?
    requires n < |After(g, ins).value.h.done|
    requires var b := After(g, ins).value.h.done[n]; k <= b.ar.len && b.ar.size > g.strb
    ensures WideBeatIs(g, After(g, ins).value.h.done[n], k, t)
  {
    hide After, Beats, Sent, Output, Handshakes, Serving, Complete, WideBeatIs;
    Always(g, ins);
    var b := After(g, ins).value.h.done[n];
    assert b in After(g, ins).value.h.done;
    CompleteBeat(g, b, k, t);
  }

  /** If narrow beat `t` is in the range of wide beat `k`, its data is in the segment of its address. */
  ghost predicate WideBeatIs(g: Geometry, b: Burst, k: nat, t: nat)
    requires g.Valid() && b.ar.size > 0
  {
    var sh := ShapeOf(g, b.ar.size);
    var lo, hi := FirstOf(sh, b.ar.addr, k), FirstOf(sh, b.ar.addr, k + 1);
    && 0 <= lo <= hi <= |b.narrows| && k < b.count
    && var beat := BeatsOf(g, b, b.count)[k];
       && |beat.data| == g.segs && (lo <= t < hi ==> beat.data[SegOf(g, b.ar, t)] == b.narrows[t].data)
       && beat.resp == LastError(b.narrows, hi)
       && beat.last == (k == b.ar.len) && beat.id == b.ar.id
  }

  lemma CompleteBeat(g: Geometry, b: Burst, k: nat, t: nat)
    requires g.Valid() && Complete(g, b) && b.ar.size > g.strb && k <= b.ar.len
    ensures WideBeatIs(g, b, k, t)
  {
    var sh := ShapeOf(g, b.ar.size);
    var lo, hi := FirstOf(sh, b.ar.addr, k), FirstOf(sh, b.ar.addr, k + 1);
    BeatsOfAt(g, b, b.count, k);
    TotalLeft(sh, b.ar, k);
    BlockBounds(sh, b.ar.addr, k);
    if lo <= t < hi {
      forall u: nat | t + 1 <= u < hi ensures SegOf(g, b.ar, u) != SegOf(g, b.ar, t) {
        SegmentsDiffer(g, b.ar, k, t, u);
      }
      assert Elsewhere(g, b.ar, t + 1, hi, SegOf(g, b.ar, t));
      hide Merged, SegOf, BeatAddr, Tiled, WellSized, ShapeOf, FirstOf, LastError;
      MergedSegment(g, b, lo, hi, t);
    }
  }

  lemma BlockBounds(sh: Shape, addr: Word, k: nat)
    requires sh.Valid()
    ensures 0 <= FirstOf(sh, addr, k) <= FirstOf(sh, addr, k + 1)
  {
    hide Offset;
    assert (k + 1) * sh.ratio == k * sh.ratio + sh.ratio;
    MulGap(sh.ratio, k);
    assert sh.ratio * k == k * sh.ratio;
  }

  /** The receiver gets the wide beats of the bursts in order, without loss; the master addresses
      are sent once each, in order. */
  lemma {:induction false} DeliversTheBursts(g: Geometry, ins: seq<In>)
    requires g.Valid() && g.Spans() && After(g, ins).Some?
    ensures var System(s, h) := After(g, ins).value;
            var all := AllBeats(g, h.done + Opt(h.cur));
            && h.delivered <= all
            && (s.k.out.None? ==> h.delivered == all)
            && h.sent + Opt(s.f.mAr) == AllMars(h.done + Opt(h.cur))
  {
    hide After, Handshakes, InService, AllBeats, AllMars;
    Always(g, ins);
    var System(s, h) := After(g, ins).value;
    assert h.delivered + Held(s.k) == AllBeats(g, h.done + Opt(h.cur));
  }
}
