/** What the width adapter keeps over every run: each burst becomes exactly its beats. */
module AdapterTheorems {
  import opened Options
  import opened Skid
  import opened AdapterModel
  import opened AdapterProofs

  predicate Handshakes(s: State) {
    && (s.f.rReady ==> s.k.ready && !s.f.phase.Idle?)
    && (s.f.arReady ==> s.f.mAr.None? && s.f.phase.Idle?)
  }

  ghost predicate InService(g: Geometry, s: State, h: Hist)
    requires g.Valid()
  {
    && (forall b :: b in h.done ==> Complete(g, b))
    && (h.cur.Some? <==> !s.f.phase.Idle?)
    && (h.cur.Some? ==> Serving(g, s.f, h.cur.value))
  }

  predicate Beats(g: Geometry, h: Hist)
    requires g.Valid()
  {
    h.produced == AllBeats(g, h.done) + if h.cur.Some? then BeatsOf(g, h.cur.value, h.cur.value.count) else []
  }

  predicate Sent(g: Geometry, s: State, h: Hist)
    requires g.Valid()
  {
    h.sent + Opt(s.f.mAr) == AllSent(g, h.done + Opt(h.cur))
  }

  predicate Output(s: State, h: Hist) {
    SlotsInv(s.k) && h.produced == h.delivered + Held(s.k)
  }

  ghost predicate Inv(g: Geometry, x: System)
    requires g.Valid()
  {
    Handshakes(x.s) && InService(g, x.s, x.h) && Beats(g, x.h) && Sent(g, x.s, x.h) && Output(x.s, x.h)
  }

  lemma HandshakesStep(g: Geometry, s: State, i: In)
    requires g.Valid() && Handshakes(s)
    ensures Handshakes(Next(g, s, i))
    ensures Emit(g, s.f, s.k.ready, i).Some? ==> s.k.ready
    ensures s.f.phase.Idle? ==> !RFire(s.f, i)
  {
    hide Crosses, MasterArOf, Seg, Slice;
  }

  lemma InServiceStep(g: Geometry, s: State, h: Hist, i: In)
    requires g.Valid() && g.Spans()
    requires InService(g, s, h) && Legal(s, h, i)
    ensures InService(g, Next(g, s, i), Observe(g, h, s, i))
  {
    hide Serving, Complete, Emit, Grown, NextSlots, Early;
    var early := Early(s.k, Emit(g, s.f, s.k.ready, i).Some?, i.take);
    PhaseStep(g, s.f, s.k.ready, early, i);
    if h.cur.Some? {
      assert s.f.phase.Data? && RFire(s.f, i) ==> (i.r.value.last <==> |h.cur.value.wides| == h.cur.value.ar.len);
      hide NextFsm;
      BurstStep(g, s, early, h.cur.value, i);
    } else if ArFire(s.f, i) {
      hide NextFsm;
      StartServes(g, s.f, s.k.ready, early, i);
    }
  }

  lemma PhaseStep(g: Geometry, f: Fsm, ready: bool, early: bool, i: In)
    requires g.Valid()
    ensures f.phase.Idle? ==> (NextFsm(g, f, ready, early, i).phase.Idle? <==> !ArFire(f, i))
  {
    hide Crosses, MasterArOf, Seg, Slice;
  }

  lemma AllBeatsSnoc(g: Geometry, done: seq<Burst>, b: Burst)
    requires g.Valid()
    ensures AllBeats(g, done + [b]) == AllBeats(g, done) + BeatsOf(g, b, b.count)
    ensures AllSent(g, done + [b]) == AllSent(g, done) + [MasterArOf(g, b.ar)]
  {
    assert (done + [b])[..|done|] == done;
  }

  /** The burst grows by the beat offered this clock. */
  lemma GrownBeats(g: Geometry, s: State, early: bool, b: Burst, i: In)
    requires g.Valid() && g.Spans()
    requires Serving(g, s.f, b)
    requires s.f.phase.Data? && RFire(s.f, i) ==> (i.r.value.last <==> |b.wides| == b.ar.len)
    ensures var b2 := Grown(b, g, s, i);
            BeatsOf(g, b2, b2.count) == BeatsOf(g, b, b.count) + Opt(Emit(g, s.f, s.k.ready, i))
  {
    hide Emit, Seg, BeatAddr, WideOf, Slice;
    var b2 := Grown(b, g, s, i);
    BurstStep(g, s, early, b, i);
    forall k: nat | k < b.count ensures WideIndex(g, b.ar, k) < |b.wides| {
      TakenCovers(g, s.f, b, k);
    }
    BeatsStay(g, b, b2, b.count);
  }

  lemma BeatsStep(g: Geometry, s: State, h: Hist, i: In)
    requires g.Valid() && g.Spans()
    requires InService(g, s, h) && Legal(s, h, i) && Beats(g, h)
    ensures Beats(g, Observe(g, h, s, i))
  {
    hide Serving, Complete, Grown, NextFsm, Early, BeatsOf, AllBeats;
    var early := Early(s.k, Emit(g, s.f, s.k.ready, i).Some?, i.take);
    PhaseStep(g, s.f, s.k.ready, early, i);
    var h2 := Observe(g, h, s, i);
    if h.cur.Some? {
      GrownBeats(g, s, early, h.cur.value, i);
      hide Emit;
      AllBeatsSnoc(g, h.done, Grown(h.cur.value, g, s, i));
    } else {
      assert BeatsOf(g, Burst(if i.ar.Some? then i.ar.value else Ar(0, 0, 0, 0, false, 0), [], 0), 0) == [];
    }
  }

  lemma SentStep(g: Geometry, s: State, h: Hist, i: In)
    requires g.Valid()
    requires Handshakes(s) && (h.cur.Some? <==> !s.f.phase.Idle?) && Sent(g, s, h)
    ensures Sent(g, Next(g, s, i), Observe(g, h, s, i))
  {
    hide Emit, AllSent, MasterArOf, Crosses, NextFsm, Early;
    var early := Early(s.k, Emit(g, s.f, s.k.ready, i).Some?, i.take);
    var n, h2 := NextFsm(g, s.f, s.k.ready, early, i), Observe(g, h, s, i);
    SendsOnce(g, s.f, s.k.ready, early, i);
    PhaseStep(g, s.f, s.k.ready, early, i);
    if ArFire(s.f, i) {
      AllBeatsSnoc(g, h.done, Burst(i.ar.value, [], 0));
      assert h.done + Opt(h.cur) == h.done;
      assert h.sent + Opt(s.f.mAr) == h.sent;
    } else {
      assert h.sent + Opt(s.f.mAr) == h2.sent + Opt(n.mAr);
      SameOrders(g, h, h2);
    }
  }

  lemma SendsOnce(g: Geometry, f: Fsm, ready: bool, early: bool, i: In)
    requires g.Valid() && (f.arReady ==> f.mAr.None?)
    ensures NextFsm(g, f, ready, early, i).mAr
            == if ArFire(f, i) then Some(MasterArOf(g, i.ar.value)) else if i.mArReady then None else f.mAr
  {
    hide Crosses, MasterArOf, Seg, Slice;
  }

  lemma SameOrders(g: Geometry, h: Hist, h2: Hist)
    requires g.Valid()
    requires
      || (h2.done == h.done && h2.cur == h.cur)
      || (h.cur.Some? && h2.done == h.done && h2.cur.Some? && h2.cur.value.ar == h.cur.value.ar)
      || (h.cur.Some? && h2.cur.None? && |h2.done| == |h.done| + 1 && h2.done[..|h.done|] == h.done
          && h2.done[|h.done|].ar == h.cur.value.ar)
    ensures AllSent(g, h2.done + Opt(h2.cur)) == AllSent(g, h.done + Opt(h.cur))
  {
    if h.cur.Some? {
      AllBeatsSnoc(g, h.done, h.cur.value);
      var last := if h2.cur.Some? then h2.cur.value else h2.done[|h.done|];
      AllBeatsSnoc(g, h.done, last);
      assert h2.done + Opt(h2.cur) == h.done + [last];
    }
  }

  lemma OutputStep(g: Geometry, s: State, h: Hist, i: In)
    requires g.Valid() && Handshakes(s) && Output(s, h)
    ensures Output(Next(g, s, i), Observe(g, h, s, i))
  {
    hide Emit, NextFsm, Held, Leaves, SlotsInv, NextSlots, Grown;
    HandshakesStep(g, s, i);
    var beat := Emit(g, s.f, s.k.ready, i);
    Conserves(s.k, beat, i.take);
    assert (h.delivered + Held(s.k)) + Opt(beat) == h.delivered + (Held(s.k) + Opt(beat));
    assert h.delivered + (Leaves(s.k, i.take) + Held(NextSlots(s.k, beat, i.take)))
        == (h.delivered + Leaves(s.k, i.take)) + Held(NextSlots(s.k, beat, i.take));
  }

  lemma {:induction false} Always(g: Geometry, ins: seq<In>)
    requires g.Valid() && g.Spans() && After(g, ins).Some?
    ensures Inv(g, After(g, ins).value)
  {
    if ins == [] {
      assert AllSent(g, []) == [] && AllBeats(g, []) == [];
    } else {
      hide Handshakes, InService, Beats, Sent, Output, Legal, Next, Observe;
      var n := |ins| - 1;
      Always(g, ins[..n]);
      var System(s, h) := After(g, ins[..n]).value;
      HandshakesStep(g, s, ins[n]);
      InServiceStep(g, s, h, ins[n]);
      BeatsStep(g, s, h, ins[n]);
      assert h.cur.Some? <==> !s.f.phase.Idle? by { CurIff(g, s, h); }
      SentStep(g, s, h, ins[n]);
      OutputStep(g, s, h, ins[n]);
    }
  }

  lemma CurIff(g: Geometry, s: State, h: Hist)
    requires g.Valid() && InService(g, s, h)
    ensures h.cur.Some? <==> !s.f.phase.Idle?
  {
  }

  // ---------------------------------------------------------------- main results

  /** A wide beat is only taken when the output stage has room, and the spare slot is then free. */
  lemma {:induction false} ReadyMeansRoom(g: Geometry, ins: seq<In>)
    requires g.Valid() && g.Spans() && After(g, ins).Some?
    ensures var s := After(g, ins).value.s;
            (s.f.rReady ==> s.k.ready) && (s.k.ready ==> s.k.temp.None?)
  {
    Always(g, ins);
  }

  lemma {:induction false} BeatsOfAt(g: Geometry, b: Burst, n: nat, k: nat)
    requires g.Valid() && k < n
    ensures BeatsOf(g, b, n)[k] == BeatOf(g, b, k)
  {
    if k < n - 1 {
      BeatsOfAt(g, b, n - 1, k);
    }
  }

  /** Every finished burst: ARLEN + 1 narrow beats, the last one alone marked last, beat `k` the
      slice at byte address `araddr + k * size` of the wide stream; and the wide beats taken for it
      are exactly those its master address asks for. */
  lemma {:induction false} FinishedBurstsAreExact(g: Geometry, ins: seq<In>, n: nat, k: nat)
    requires g.Valid() && g.Spans() && After(g, ins).Some?
    requires n < |After(g, ins).value.h.done|
    requires k <= After(g, ins).value.h.done[n].ar.len
    ensures var b := After(g, ins).value.h.done[n];
            var beats := BeatsOf(g, b, b.count);
            && |beats| == b.ar.len + 1
            && |b.wides| == MasterArOf(g, b.ar).len + 1
            && 0 <= WideIndex(g, b.ar, k) < |b.wides|
            && beats[k] == NarrowBeat(b.ar.id, Slice(b.wides[WideIndex(g, b.ar, k)], Seg(g, BeatAddr(b.ar, k))),
                                      b.wides[WideIndex(g, b.ar, k)].resp, k == b.ar.len)
  {
    hide After, Beats, Sent, Output, Handshakes, Seg, Slice, WideOf, Geometry.Spans, ConvertedLen;
    Always(g, ins);
    var b := After(g, ins).value.h.done[n];
    assert b in After(g, ins).value.h.done;
    BeatsOfAt(g, b, b.count, k);
    BeatAddrStep(b.ar, 0);
    if Converts(g, b.ar) {
      ConvertedLenCounts(g, b.ar);
      WideGrows(g, b.ar, 0, k);
      WideGrows(g, b.ar, k, b.ar.len);
    }
  }

  /** The receiver gets the beats of the finished bursts, then those given so far of the burst in
      service, in order and without loss; all of them once the output stage is empty. */
  lemma {:induction false} DeliversTheBursts(g: Geometry, ins: seq<In>)
    requires g.Valid() && g.Spans() && After(g, ins).Some?
    ensures var System(s, h) := After(g, ins).value;
            var all := AllBeats(g, h.done + Opt(h.cur));
            && h.delivered <= all
            && (s.k.out.None? ==> h.delivered == all)
  {
    hide After, Sent, Handshakes, InService, AllBeats, BeatsOf;
    Always(g, ins);
    var System(s, h) := After(g, ins).value;
    if h.cur.Some? {
      AllBeatsSnoc(g, h.done, h.cur.value);
    } else {
      assert h.done + Opt(h.cur) == h.done;
      assert h.produced == AllBeats(g, h.done);
    }
    assert h.delivered + Held(s.k) == AllBeats(g, h.done + Opt(h.cur));
  }

  /** Each accepted address is sent on once, in order. */
  lemma EachAddressIsSentOnce(g: Geometry, ins: seq<In>)
    requires g.Valid() && g.Spans() && After(g, ins).Some?
    ensures var System(s, h) := After(g, ins).value;
            h.sent + Opt(s.f.mAr) == AllSent(g, h.done + Opt(h.cur))
  {
    Always(g, ins);
  }
}
