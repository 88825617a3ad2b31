/** With narrow beats offered, addresses taken and wide beats taken, the adapter towards a narrower bus
    finishes each burst, and delivers it, in three clocks a narrow beat and a few more. */
module MergeProgress {
  import opened Options
  import opened Skid
  import A = AdapterModel
  import opened MergeModel
  import opened MergeProofs
  import opened MergeTheorems

  predicate Eager(ins: seq<In>) { forall i :: i in ins ==> i.take && i.mArReady && i.r.Some? }

  /** Narrow beats the burst still needs. */
  function Owed(g: Geometry, b: Burst): int
    requires g.Valid()
  {
    if b.ar.size == 0 then 0 else Total(ShapeOf(g, b.ar.size), b.ar) - |b.narrows|
  }

  /** Clocks the burst can still take: three a narrow beat, less when one comes with this clock or
      the next. */
  function Left(g: Geometry, f: Fsm, b: Burst): int
    requires g.Valid()
  {
    3 * Owed(g, b) + (if f.rReady then 0 else if f.mAr.None? then 1 else 2)
  }

  lemma OwedIsPositive(g: Geometry, f: Fsm, b: Burst)
    requires g.Valid() && Serving(g, f, b)
    ensures b.ar.size > 0 && Owed(g, b) > 0
  {
    hide Offset, Tiled, Covered, Merged, LastError, Resp;
  }

  lemma LeftDrops(g: Geometry, s: State, b: Burst, early: bool, i: In)
    requires g.Valid() && Handshakes(s) && s.f.busy && b.ar.size > 0
    requires early && i.mArReady && i.r.Some?
    ensures var (f2, b2) := (NextFsm(g, s.f, early, i), Grown(g, b, s.f, early, i));
            b2.ar == b.ar && Left(g, f2, b2) < Left(g, s.f, b)
  {
    hide Total, ShapeOf, Crosses, Placed, Resp, NextAddr, Asks, Emit;
  }

  lemma LastClock(g: Geometry, before: seq<In>, ins: seq<In>)
    requires g.Valid() && ins != [] && After(g, before + ins).Some?
    ensures var (front, i) := (ins[..|ins| - 1], ins[|ins| - 1]);
            && After(g, before + front).Some?
            && var System(s, h) := After(g, before + front).value;
               Legal(g, s, i) && After(g, before + ins).value == System(Next(g, s, i), Observe(g, h, s, i))
  {
    hide Next, Observe, Legal;
    assert (before + ins)[..|before + ins| - 1] == before + ins[..|ins| - 1];
  }

  /** The burst that was in service is done. */
  predicate Finished(x: Hist, y: Hist, ar: A.Ar) { x.done < y.done && y.done[|x.done|].ar == ar }

  predicate InProgress(x: Hist, y: Hist, ar: A.Ar) { y.done == x.done && y.cur.Some? && y.cur.value.ar == ar }

  lemma OneClock(g: Geometry, x: Hist, ar: A.Ar, y: System, i: In)
    requires g.Valid() && Handshakes(y.s) && InService(g, y.s, y.h) && i.take && i.mArReady && i.r.Some? && ar.size > 0
    requires Finished(x, y.h, ar) || InProgress(x, y.h, ar)
    ensures var (s2, h2) := (Next(g, y.s, i), Observe(g, y.h, y.s, i));
            || Finished(x, h2, ar)
            || (InProgress(x, y.h, ar) && InProgress(x, h2, ar)
                && Left(g, s2.f, h2.cur.value) < Left(g, y.s.f, y.h.cur.value))
  {
    hide Serving, Complete, NextFsm, Emit, NextSlots, Left, Asks;
    if InProgress(x, y.h, ar) {
      LeftDrops(g, y.s, y.h.cur.value, Early(y.s.k, Emit(g, y.s.f, i).Some?, i.take), i);
    }
  }

  lemma SizeInService(g: Geometry, s: State, h: Hist)
    requires g.Valid() && InService(g, s, h) && h.cur.Some?
    ensures h.cur.value.ar.size > 0 && Owed(g, h.cur.value) > 0
  {
    hide Serving, Complete, Owed;
    OwedIsPositive(g, s.f, h.cur.value);
  }

  lemma {:induction false} EagerServes(g: Geometry, before: seq<In>, ins: seq<In>)
    requires g.Valid() && g.Spans() && After(g, before).Some? && After(g, before + ins).Some? && Eager(ins)
    requires After(g, before).value.h.cur.Some? && After(g, before).value.h.cur.value.ar.size > 0
    ensures var (x, y) := (After(g, before).value, After(g, before + ins).value);
            || Finished(x.h, y.h, x.h.cur.value.ar)
            || (InProgress(x.h, y.h, x.h.cur.value.ar)
                && Left(g, y.s.f, y.h.cur.value) + |ins| <= Left(g, x.s.f, x.h.cur.value))
  {
    if ins == [] {
      assert before + ins == before;
    } else {
      hide After, Next, Observe, Legal, Left, Handshakes, InService, Beats, Sent, Output, Finished;
      var n := |ins| - 1;
      LastClock(g, before, ins);
      EagerServes(g, before, ins[..n]);
      Always(g, before + ins[..n]);
      assert ins[n] in ins;
      var x := After(g, before).value.h;
      OneClock(g, x, x.cur.value.ar, After(g, before + ins[..n]).value, ins[n]);
    }
  }

  // ---------------------------------------------------------------- delivery

  /** Two clocks of a receiver that takes empty the output stage of what was in it. */
  lemma TwoTakesDeliver(g: Geometry, x: System, i: In, j: In)
    requires g.Valid() && Handshakes(x.s) && Output(x.s, x.h) && i.take && j.take
    ensures var (s2, h2) := (Next(g, x.s, i), Observe(g, x.h, x.s, i)); x.h.produced <= Observe(g, h2, s2, j).delivered
  {
    hide NextFsm, Emit, Grown, Handshakes, Asks;
    HandshakesStep(g, x.s, i);
    assert x.h.produced == x.h.delivered + Opt(x.s.k.out) + Opt(x.s.k.temp);
  }

  lemma PrefixOfBeats(g: Geometry, bursts: seq<Burst>, n: nat)
    requires g.Valid() && n <= |bursts|
    ensures AllBeats(g, bursts[..n]) <= AllBeats(g, bursts)
  {
    if n < |bursts| {
      var front := bursts[..|bursts| - 1];
      PrefixOfBeats(g, front, n);
      assert front[..n] == bursts[..n];
    } else {
      assert bursts[..n] == bursts;
    }
  }

  lemma DoneGrows(g: Geometry, s: State, h: Hist, i: In)
    requires g.Valid()
    ensures h.done <= Observe(g, h, s, i).done
  {
    hide Emit, Grown, NextFsm, Asks;
  }

  /** A burst in service that needs `n` more narrow beats is finished and its wide beats all delivered
      3 n + 5 clocks later. */
  lemma {:induction false} BurstsFinish(g: Geometry, before: seq<In>, ins: seq<In>, i: In, j: In)
    requires g.Valid() && g.Spans() && After(g, before + ins + [i] + [j]).Some? && Eager(ins + [i] + [j])
    requires After(g, before).Some? && After(g, before).value.h.cur.Some?
    requires |ins| >= 3 * Owed(g, After(g, before).value.h.cur.value) + 3
    ensures var (x, y) := (After(g, before).value.h, After(g, before + ins + [i] + [j]).value.h);
            Finished(x, y, x.cur.value.ar) && AllBeats(g, y.done[..|x.done| + 1]) <= y.delivered
  {
    hide After, Next, Observe, Legal, Handshakes, InService, Beats, Sent, Output, AllBeats, Owed;
    var m := before + ins;
    assert (m + [i]) + [j] == before + ins + [i] + [j];
    LastClock(g, m + [i], [j]);
    assert [j][..0] == [] && m + [i] + [] == m + [i];
    LastClock(g, m, [i]);
    assert [i][..0] == [] && m + [] == m;
    assert Eager(ins) by { assert forall k :: k in ins ==> k in ins + [i] + [j]; }
    assert i in ins + [i] + [j] && j in ins + [i] + [j];
    Always(g, before);
    SizeInService(g, After(g, before).value.s, After(g, before).value.h);
    EagerServes(g, before, ins);
    Always(g, m);
    var (x, z) := (After(g, before).value, After(g, m).value);
    if z.h.cur.Some? {
      SizeInService(g, z.s, z.h);
    }
    DoneGrows(g, z.s, z.h, i);
    DoneGrows(g, Next(g, z.s, i), Observe(g, z.h, z.s, i), j);
    TwoTakesDeliver(g, z, i, j);
    DeliveredSoFar(g, z, |x.h.done| + 1);
    var y := After(g, before + ins + [i] + [j]).value.h;
    assert y.done[..|x.h.done| + 1] == z.h.done[..|x.h.done| + 1];
  }

  lemma DeliveredSoFar(g: Geometry, x: System, n: nat)
    requires g.Valid() && Beats(g, x.h) && n <= |x.h.done|
    ensures AllBeats(g, x.h.done[..n]) <= x.h.produced
  {
    hide AllBeats;
    var all := x.h.done + Opt(x.h.cur);
    PrefixOfBeats(g, all, n);
    assert all[..n] == x.h.done[..n];
  }
}
