/** With wide beats offered and narrow beats taken, the width adapter finishes each burst, and
    delivers it, in two clocks a beat and a few more. */
module AdapterProgress {
  import opened Options
  import opened Skid
  import opened AdapterModel
  import opened AdapterProofs
  import opened AdapterTheorems

  predicate Eager(ins: seq<In>) { forall i :: i in ins ==> i.take && i.r.Some? }

  /** Clocks the burst can still take: two a beat, less when a beat comes with this clock. */
  function Left(s: State, b: Burst): int {
    2 * (b.ar.len + 1 - b.count)
    + (if s.f.rReady || s.f.phase.Split? then 0 else 1) + (if s.k.ready then 0 else 1)
  }

  lemma LeftDrops(g: Geometry, s: State, b: Burst, i: In)
    requires g.Valid() && Handshakes(s) && Serving(g, s.f, b) && i.take && i.r.Some?
    ensures !Next(g, s, i).f.phase.Idle? ==> Left(Next(g, s, i), Grown(b, g, s, i)) < Left(s, b)
  {
    hide WideIndex, Seg, Slice, BeatAddr, Crosses, Converts, NextAddr;
  }

  lemma LastClock(g: Geometry, before: seq<In>, ins: seq<In>)
    requires g.Valid() && ins != [] && After(g, before + ins).Some?
    ensures var (front, i) := (ins[..|ins| - 1], ins[|ins| - 1]);
            && After(g, before + front).Some?
            && var System(s, h) := After(g, before + front).value;
               Legal(s, h, i) && After(g, before + ins).value == System(Next(g, s, i), Observe(g, h, s, i))
  {
    hide Next, Observe, Legal;
    assert (before + ins)[..|before + ins| - 1] == before + ins[..|ins| - 1];
  }

  predicate Finished(x: Hist, y: Hist, ar: Ar) {
    x.done < y.done && y.done[|x.done|].ar == ar
  }

  lemma OneClock(g: Geometry, x: System, ar: Ar, y: System, i: In)
    requires g.Valid() && Handshakes(y.s) && InService(g, y.s, y.h) && i.take && i.r.Some?
    requires Finished(x.h, y.h, ar) || (y.h.done == x.h.done && y.h.cur.Some? && y.h.cur.value.ar == ar)
    ensures var (s', h') := (Next(g, y.s, i), Observe(g, y.h, y.s, i));
            || Finished(x.h, h', ar)
            || (h'.done == x.h.done && h'.cur.Some? && h'.cur.value.ar == ar && y.h.cur.Some?
                && y.h.done == x.h.done && Left(s', h'.cur.value) < Left(y.s, y.h.cur.value))
  {
    hide Serving, Complete, NextFsm, Emit, NextSlots, Early, Left;
    if y.h.cur.Some? {
      LeftDrops(g, y.s, y.h.cur.value, i);
    }
  }

  lemma {:induction false} EagerServes(g: Geometry, before: seq<In>, ins: seq<In>)
    requires g.Valid() && g.Spans() && After(g, before).Some? && After(g, before + ins).Some? && Eager(ins)
    requires After(g, before).value.h.cur.Some?
    ensures var (x, y) := (After(g, before).value, After(g, before + ins).value);
            || Finished(x.h, y.h, x.h.cur.value.ar)
            || (y.h.done == x.h.done && y.h.cur.Some? && y.h.cur.value.ar == x.h.cur.value.ar
                && Left(y.s, y.h.cur.value) + |ins| <= Left(x.s, x.h.cur.value))
  {
    if ins == [] {
      assert before + ins == before;
    } else {
      hide After, Next, Observe, Legal, Left, Handshakes, InService, Beats, Sent, Output, Finished;
      var n := |ins| - 1;
      LastClock(g, before, ins);
      EagerServes(g, before, ins[..n]);
      Always(g, before + ins[..n]);
      assert ins[n] in ins;
      OneClock(g, After(g, before).value, After(g, before).value.h.cur.value.ar, After(g, before + ins[..n]).value, ins[n]);
    }
  }

  // ---------------------------------------------------------------- delivery

  /** Two clocks of a receiver that takes empty the output stage of what was in it. */
  lemma TwoTakesDeliver(g: Geometry, x: System, i: In, j: In)
    requires g.Valid() && Handshakes(x.s) && Output(x.s, x.h) && i.take && j.take
    ensures var (s', h') := (Next(g, x.s, i), Observe(g, x.h, x.s, i)); x.h.produced <= Observe(g, h', s', j).delivered
  {
    hide NextFsm, Emit, Grown, Handshakes;
    HandshakesStep(g, x.s, i);
    assert x.h.produced == x.h.delivered + Opt(x.s.k.out) + Opt(x.s.k.temp);
  }

  lemma PrefixOfBeats(g: Geometry, bursts: seq<Burst>, n: nat)
    requires g.Valid() && n <= |bursts|
    ensures AllBeats(g, bursts[..n]) <= AllBeats(g, bursts)
  {
    if n < |bursts| {
      var front := bursts[..|bursts| - 1];
      PrefixOfBeats(g, front, n);
      assert front[..n] == bursts[..n];
    } else {
      assert bursts[..n] == bursts;
    }
  }

  lemma DoneGrows(g: Geometry, s: State, h: Hist, i: In)
    requires g.Valid()
    ensures h.done <= Observe(g, h, s, i).done && h.delivered <= Observe(g, h, s, i).delivered
  {
  }

  /** A burst in service, with `count` beats given, is finished and all its beats delivered
      2 * (ARLEN + 1 - count) + 3 clocks later. */
  lemma {:induction false} BurstsFinish(g: Geometry, before: seq<In>, ins: seq<In>, i: In, j: In)
    requires g.Valid() && g.Spans() && After(g, before + ins + [i] + [j]).Some? && Eager(ins + [i] + [j])
    requires After(g, before).Some? && After(g, before).value.h.cur.Some?
    requires var b := After(g, before).value.h.cur.value; |ins| > 2 * (b.ar.len + 1 - b.count)
    ensures var (x, y) := (After(g, before).value.h, After(g, before + ins + [i] + [j]).value.h);
            Finished(x, y, x.cur.value.ar) && AllBeats(g, y.done[..|x.done| + 1]) <= y.delivered
  {
    hide After, Next, Observe, Legal, Handshakes, InService, Beats, Sent, Output, AllBeats, Grown;
    var m := before + ins;
    assert (m + [i]) + [j] == before + ins + [i] + [j];
    LastClock(g, m + [i], [j]);
    assert [j][..0] == [] && m + [i] + [] == m + [i];
    LastClock(g, m, [i]);
    assert [i][..0] == [] && m + [] == m;
    assert Eager(ins) by { assert forall k :: k in ins ==> k in ins + [i] + [j]; }
    assert i in ins + [i] + [j] && j in ins + [i] + [j];
    EagerServes(g, before, ins);
    Always(g, before);
    Always(g, m);
    var (x, z) := (After(g, before).value, After(g, m).value);
    CountIsLow(g, x);
    CountIsLow(g, z);
    DoneGrows(g, z.s, z.h, i);
    DoneGrows(g, Next(g, z.s, i), Observe(g, z.h, z.s, i), j);
    TwoTakesDeliver(g, z, i, j);
    PrefixOfBeats(g, z.h.done, |x.h.done| + 1);
    DoneIsProduced(g, z);
    var y := After(g, before + ins + [i] + [j]).value.h;
    assert y.done[..|x.h.done| + 1] == z.h.done[..|x.h.done| + 1];
  }

  lemma CountIsLow(g: Geometry, x: System)
    requires g.Valid() && InService(g, x.s, x.h)
    ensures x.h.cur.Some? ==> x.h.cur.value.count <= x.h.cur.value.ar.len
  {
  }

  lemma DoneIsProduced(g: Geometry, x: System)
    requires g.Valid() && Beats(g, x.h)
    ensures AllBeats(g, x.h.done) <= x.h.produced
  {
  }
}
