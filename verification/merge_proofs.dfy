/** The arithmetic of merging and splitting, and the invariant of the burst in service. */
module MergeProofs {
  import opened Options
  import opened Words
  import opened Skid
  import A = AdapterModel
  import P = AdapterProofs
  import opened MergeModel

  // ---------------------------------------------------------------- addresses

  /** A beat's address is its step number times the step, plus what an unaligned start adds. */
  lemma BeatForm(sh: Shape, addr: Word, t: nat) returns (r: nat)
    requires sh.Valid()
    ensures r < sh.step && BeatAddr(sh, addr, t) == (addr / sh.step + t) * sh.step + r
    ensures BeatAddr(sh, addr, t) / sh.step == addr / sh.step + t
  {
    r := if t == 0 then addr % sh.step else 0;
    DivUnique(BeatAddr(sh, addr, t), addr / sh.step + t, sh.step, r);
  }

  lemma StepsFill(g: Geometry, size: nat) returns (w: nat)
    requires g.Valid() && g.Spans() && WellSized(g, size)
    ensures w > 0 && W32 == w * ShapeOf(g, size).step
  {
    var sh := ShapeOf(g, size);
    var c := g.strb / sh.step;
    w := c * (g.segs * (2 * g.half));
    assert g.Wide() * (2 * g.half) == (sh.step * c) * g.segs * (2 * g.half);
    assert (sh.step * c) * g.segs * (2 * g.half) == c * (g.segs * (2 * g.half)) * sh.step;
    Factors(w, sh.step);
  }

  lemma Factors(x: nat, y: nat)
    requires x * y > 0
    ensures x > 0 && y > 0
  {
  }

  /** Rounding the next address down to a step, with the address wrapping, is the next beat's. */
  lemma NextIs(q: nat, step: nat, r: nat, w: nat, addr: Word)
    requires r < step && w > 0 && W32 == w * step && addr == (q * step + r) % W32
    ensures var x := (addr + step) % W32; x - x % step == ((q + 1) * step) % W32
  {
    var v, u := (q + 1) % w, (q + 1) / w;
    assert (q + 1) * step == v * step + u * W32 by {
      assert q + 1 == w * u + v;
      assert (w * u + v) * step == u * (w * step) + v * step;
    }
    assert v * step + r < W32 by {
      MulGap(step, w - v);
      assert step * (w - v) == w * step - v * step;
    }
    DivUnique((q + 1) * step, u, W32, v * step);
    var b := q * step + r;
    assert b + step == u * W32 + (v * step + r);
    DivUnique(b + step, u, W32, v * step + r);
    var k := b / W32;
    ModShift(addr + step, k, W32);
    assert addr + step + k * W32 == b + step;
    DivUnique(v * step + r, v, step, r);
  }

  lemma Rounds(f: Fsm)
    requires f.mSize > 0
    ensures var x := (f.addr + f.mSize) % W32; NextAddr(f) == x - x % f.mSize
  {
  }

  lemma LaterBeat(sh: Shape, addr: Word, t: nat)
    requires sh.Valid()
    ensures BeatAddr(sh, addr, t + 1) == (addr / sh.step + t + 1) * sh.step
  {
  }

  lemma NextBeat(g: Geometry, f: Fsm, ar: A.Ar, t: nat)
    requires g.Valid() && g.Spans() && WellSized(g, ar.size)
    requires f.mSize == ShapeOf(g, ar.size).step && f.addr == BeatAddr(ShapeOf(g, ar.size), ar.addr, t) % W32
    ensures NextAddr(f) == BeatAddr(ShapeOf(g, ar.size), ar.addr, t + 1) % W32
  {
    hide BeatAddr, NextAddr, A.Geometry.Spans;
    var w := StepsFill(g, ar.size);
    NextBeatOf(ShapeOf(g, ar.size), w, f, ar.addr, t);
  }

  lemma NextBeatOf(sh: Shape, w: nat, f: Fsm, addr: Word, t: nat)
    requires sh.Valid() && w > 0 && W32 == w * sh.step
    requires f.mSize == sh.step && f.addr == BeatAddr(sh, addr, t) % W32
    ensures NextAddr(f) == BeatAddr(sh, addr, t + 1) % W32
  {
    hide BeatAddr, NextAddr;
    var r := BeatForm(sh, addr, t);
    var q := addr / sh.step + t;
    LaterBeat(sh, addr, t);
    Rounds(f);
    assert BeatAddr(sh, addr, t) == q * sh.step + r && BeatAddr(sh, addr, t + 1) == (q + 1) * sh.step;
    NextIs(q, sh.step, r, w, f.addr);
  }

  // ---------------------------------------------------------------- wide beats

  /** The geometry in which the hardware's compared bit counts the wide beats of this size. */
  lemma CrossGeometry(g: Geometry, size: nat) returns (h: Geometry)
    requires g.Valid() && g.Spans() && WellSized(g, size)
    ensures h.Valid() && h.Spans() && h.strb == ShapeOf(g, size).step && h.segs == ShapeOf(g, size).ratio && h.Wide() == size
  {
    var sh := ShapeOf(g, size);
    var c := g.strb / sh.step;
    var d := if size > g.strb then g.segs / sh.ratio else g.segs;
    h := A.Geometry(sh.step, sh.ratio, c * (d * g.half), false);
    if size > g.strb {
      RatioFits(sh.ratio, d, g.segs);
    }
    assert g.segs == sh.ratio * d;
    SpansAgain(sh.step, c, sh.ratio, d, g.half);
    Factors(sh.step * sh.ratio, 2 * h.half);
  }

  lemma RatioFits(ratio: nat, d: nat, segs: nat)
    requires segs == ratio * d && segs > 0
    ensures ratio <= segs
  {
    Factors(ratio, d);
    MulGap(ratio, d - 1);
    assert ratio * (d - 1) == segs - ratio;
  }

  lemma SpansAgain(step: nat, c: nat, ratio: nat, d: nat, half: nat)
    ensures step * c * (ratio * d) * (2 * half) == step * ratio * (2 * (c * (d * half)))
  {
    var x := d * half;
    assert step * c * (ratio * d) == step * ratio * (c * d);
    assert step * ratio * (c * d) * (2 * half) == step * ratio * (2 * (c * d * half));
    assert c * d * half == c * x;
  }

  /** Where the offset of narrow beat `t` from the first wide boundary lies. */
  lemma Crossing(u: nat, i: nat, ratio: nat)
    requires ratio > 0 && i * ratio <= u < (i + 1) * ratio
    ensures (u + 1) % ratio == 0 <==> u + 1 == (i + 1) * ratio
  {
    var v := u - i * ratio;
    assert (i + 1) * ratio == i * ratio + ratio;
    if v + 1 == ratio {
      DivUnique(u + 1, i + 1, ratio, 0);
    } else {
      DivUnique(u + 1, i, ratio, v + 1);
    }
  }

  lemma OffsetMod(q: nat, t: nat, ratio: nat)
    requires ratio > 0
    ensures (q + t + 1) % ratio == (q % ratio + t + 1) % ratio
  {
    assert q % ratio + t + 1 + (q / ratio) * ratio == q + t + 1;
    ModShift(q % ratio + t + 1, q / ratio, ratio);
  }

  lemma NextBlock(q: nat, ratio: nat)
    requires ratio > 0
    ensures (q + 1) / ratio == q / ratio + if (q + 1) % ratio == 0 then 1 else 0
  {
    var v := q % ratio;
    assert q == (q / ratio) * ratio + v;
    if v + 1 == ratio {
      assert (q / ratio + 1) * ratio == (q / ratio) * ratio + ratio;
      DivUnique(q + 1, q / ratio + 1, ratio, 0);
    } else {
      DivUnique(q + 1, q / ratio, ratio, v + 1);
    }
  }

  /** The compared bit changes exactly when the next narrow beat starts the next wide beat. */
  lemma {:induction false} CrossesIff(g: Geometry, f: Fsm, ar: A.Ar, t: nat, i: nat)
    requires g.Valid() && g.Spans() && WellSized(g, ar.size)
    requires var sh := ShapeOf(g, ar.size);
             && f.size == ar.size && f.mSize == sh.step && f.addr == BeatAddr(sh, ar.addr, t) % W32
             && i * sh.ratio <= Offset(sh, ar.addr) + t < (i + 1) * sh.ratio
    ensures var sh := ShapeOf(g, ar.size);
            Crosses(f) <==> Offset(sh, ar.addr) + t + 1 == (i + 1) * sh.ratio
  {
    hide WellSized, A.Geometry.Spans, NextAddr, ShapeOf, BeatAddr, Crosses, A.Geometry.Wide, Offset;
    var sh := ShapeOf(g, ar.size);
    var h := CrossGeometry(g, ar.size);
    NextBeat(g, f, ar, t);
    var q := Steps(sh, ar.addr, t);
    CrossesBlock(f, h, BeatAddr(sh, ar.addr, t), BeatAddr(sh, ar.addr, t + 1), q + t);
    BlockEnds(q, t, Offset(sh, ar.addr), i, sh.ratio);
  }

  lemma Steps(sh: Shape, addr: Word, t: nat) returns (q: nat)
    requires sh.Valid()
    ensures Offset(sh, addr) == q % sh.ratio
    ensures BeatAddr(sh, addr, t) / sh.step == q + t && BeatAddr(sh, addr, t + 1) / sh.step == q + t + 1
  {
    q := addr / sh.step;
    var r0 := BeatForm(sh, addr, t);
    var r1 := BeatForm(sh, addr, t + 1);
  }

  lemma BlockEnds(q: nat, t: nat, off: nat, i: nat, ratio: nat)
    requires ratio > 0 && off == q % ratio && i * ratio <= off + t < (i + 1) * ratio
    ensures (q + t + 1) % ratio == 0 <==> off + t + 1 == (i + 1) * ratio
  {
    OffsetMod(q, t, ratio);
    Crossing(off + t, i, ratio);
  }

  lemma CrossesBlock(f: Fsm, h: Geometry, a: nat, b: nat, q: nat)
    requires h.Valid() && h.Spans() && h.Wide() == f.size > 0
    requires f.addr == a % W32 && NextAddr(f) == b % W32 && a / h.strb == q && b / h.strb == q + 1
    ensures Crosses(f) <==> (q + 1) % h.segs == 0
  {
    P.WrapKeeps(h, a);
    P.WrapKeeps(h, b);
    P.WideIsSegs(h, a, q);
    P.WideIsSegs(h, b, q + 1);
    hide A.Geometry.Spans;
    CrossWide(f, h, a, b);
    hide A.WideOf, Crosses, NextAddr;
    NextBlock(q, h.segs);
  }

  lemma CrossWide(f: Fsm, h: Geometry, a: nat, b: nat)
    requires h.Valid() && h.Wide() == f.size > 0 && f.addr == a % W32 && NextAddr(f) == b % W32
    requires A.WideOf(h, a % W32) % 2 == A.WideOf(h, a) % 2 && A.WideOf(h, b % W32) % 2 == A.WideOf(h, b) % 2
    ensures Crosses(f) <==> A.WideOf(h, b) % 2 != A.WideOf(h, a) % 2
  {
    hide NextAddr, A.Geometry.Wide;
  }

  // ---------------------------------------------------------------- master bursts

  /** A master burst's length against the narrow beats left: it never exceeds them, and it ends
      with a wide beat. `u` counts from the last wide boundary before the start. */
  lemma {:induction false} LimitedFits(len: Len, ratio: nat, e: nat, off: nat)
    requires 256 == ratio * e && off < ratio
    ensures var l := Limited(len, ratio, ratio - 1 - off);
            && l + 1 <= (len + 1) * ratio - off
            && (off + l + 1) % ratio == 0
  {
    hide Limited;
    if len * ratio >= 256 {
      LimitedLong(len, ratio, e, off);
      MultipleMod(ratio, e);
      assert (len + 1) * ratio == len * ratio + ratio;
    } else {
      LimitedShort(len, ratio, e, off);
      assert ratio * (len + 1) == (len + 1) * ratio;
      MultipleMod(ratio, len + 1);
    }
  }

  lemma LimitedLong(len: Len, ratio: nat, e: nat, off: nat)
    requires 256 == ratio * e && off < ratio && len * ratio >= 256
    ensures Limited(len, ratio, ratio - 1 - off) == 255 - off
  {
    TopBits(ratio, e);
  }

  lemma LimitedShort(len: Len, ratio: nat, e: nat, off: nat)
    requires 256 == ratio * e && off < ratio && len * ratio < 256
    ensures Limited(len, ratio, ratio - 1 - off) == (len + 1) * ratio - 1 - off
  {
    Rounded(len, ratio, e);
    assert (len + 1) * ratio == len * ratio + ratio;
  }

  lemma TopBits(ratio: nat, e: nat)
    requires 256 == ratio * e
    ensures 255 * ratio % 256 == 256 - ratio
  {
    RatioFits(ratio, e, 256);
    Factors(ratio, e);
    DivUnique(255 * ratio, ratio - 1, 256, 256 - ratio);
  }

  lemma Rounded(len: nat, ratio: nat, e: nat)
    requires 256 == ratio * e && ratio > 0 && len * ratio < 256
    ensures (len + 1) * ratio <= 256
  {
    assert ratio * (e - len) == 256 - len * ratio;
    MulGap(ratio, e - len);
    MulGap(ratio, e - len - 1);
    assert ratio * (e - len - 1) == 256 - (len + 1) * ratio;
  }

  lemma {:induction false} NextLenFits(beats: Len, ratio: nat, e: nat, i: nat)
    requires 256 == ratio * e && ratio > 0
    ensures var l := if beats * ratio >= 256 then 255 else (beats * ratio + (ratio - 1)) % 256;
            && l + 1 <= (beats + 1) * ratio
            && (i * ratio + l + 1) % ratio == 0
  {
    assert (beats + 1) * ratio == beats * ratio + ratio;
    if beats * ratio >= 256 {
      assert i * ratio + 256 == ratio * (i + e);
      MultipleMod(ratio, i + e);
    } else {
      Rounded(beats, ratio, e);
      assert i * ratio + (beats + 1) * ratio == ratio * (i + beats + 1);
      MultipleMod(ratio, i + beats + 1);
    }
  }

  // ---------------------------------------------------------------- the burst in service

  /** Each master burst starts at the address of the first narrow beat it covers. */
  ghost predicate Tiled(sh: Shape, ar: A.Ar, mars: seq<MasterAr>)
    requires sh.Valid()
  {
    forall j {:trigger mars[j]} :: 0 <= j < |mars| ==>
      mars[j] == MasterAr(ar.id, BeatAddr(sh, ar.addr, Covered(mars[..j])) % W32, mars[j].len, sh.step, ar.attributes)
  }

  lemma TiledSnoc(sh: Shape, ar: A.Ar, mars: seq<MasterAr>, m: MasterAr)
    requires sh.Valid() && Tiled(sh, ar, mars)
    requires m == MasterAr(ar.id, BeatAddr(sh, ar.addr, Covered(mars)) % W32, m.len, sh.step, ar.attributes)
    ensures Tiled(sh, ar, mars + [m]) && Covered(mars + [m]) == Covered(mars) + m.len + 1
  {
    hide BeatAddr;
    assert (mars + [m])[..|mars|] == mars;
    forall j | 0 <= j < |mars + [m]|
      ensures (mars + [m])[j] == MasterAr(ar.id, BeatAddr(sh, ar.addr, Covered((mars + [m])[..j])) % W32,
                                          (mars + [m])[j].len, sh.step, ar.attributes)
    {
      if j < |mars| {
        assert (mars + [m])[..j] == mars[..j];
      }
    }
  }

  /** Registers that say where the address and the beat counts stand. */
  ghost predicate Placing(g: Geometry, f: Fsm, b: Burst)
    requires g.Valid()
  {
    var sh, t := ShapeOf(g, b.ar.size), |b.narrows|;
    && WellSized(g, b.ar.size) && b.count <= b.ar.len && f.busy
    && f.id == b.ar.id && f.size == b.ar.size && f.mSize == sh.step && f.attributes == b.ar.attributes
    && f.addr == BeatAddr(sh, b.ar.addr, t) % W32 && f.burst == b.ar.len - b.count
    && b.count * sh.ratio <= Offset(sh, b.ar.addr) + t < (b.count + 1) * sh.ratio
  }

  /** The wide beat being merged. */
  ghost predicate Merging(g: Geometry, f: Fsm, b: Burst)
    requires g.Valid() && b.ar.size > 0
  {
    var sh, t := ShapeOf(g, b.ar.size), |b.narrows|;
    && (b.count == 0 || FirstOf(sh, b.ar.addr, b.count) >= 0)
    && FirstOf(sh, b.ar.addr, b.count) >= 0
    && f.data == Merged(g, b, FirstOf(sh, b.ar.addr, b.count), t)
    && f.resp == LastError(b.narrows, t)
  }

  /** The master burst in progress. */
  ghost predicate Asking(g: Geometry, f: Fsm, b: Burst)
    requires g.Valid() && b.ar.size > 0
  {
    var sh, t := ShapeOf(g, b.ar.size), |b.narrows|;
    && Tiled(sh, b.ar, b.mars)
    && Covered(b.mars) == t + f.mBurst + 1 <= Total(sh, b.ar)
    && (Offset(sh, b.ar.addr) + t + f.mBurst + 1) % sh.ratio == 0
  }

  ghost predicate Serving(g: Geometry, f: Fsm, b: Burst)
    requires g.Valid()
  {
    b.ar.size > 0 && Placing(g, f, b) && Merging(g, f, b) && Asking(g, f, b)
  }

  /** A finished burst: all its wide beats, exactly its narrow beats, asked for exactly once. */
  ghost predicate Complete(g: Geometry, b: Burst)
    requires g.Valid()
  {
    && b.ar.size > 0 && WellSized(g, b.ar.size)
    && var sh := ShapeOf(g, b.ar.size);
       && b.count == b.ar.len + 1
       && |b.narrows| == Total(sh, b.ar) == Covered(b.mars)
       && Tiled(sh, b.ar, b.mars)
  }

  lemma BlockOf(sh: Shape, b: Burst)
    requires sh.Valid()
    requires b.count * sh.ratio <= Offset(sh, b.ar.addr) + |b.narrows| < (b.count + 1) * sh.ratio
    ensures 0 <= FirstOf(sh, b.ar.addr, b.count) <= |b.narrows| < FirstOf(sh, b.ar.addr, b.count + 1)
    ensures Offset(sh, b.ar.addr) + |b.narrows| + 1 == (b.count + 1) * sh.ratio
            <==> |b.narrows| + 1 == FirstOf(sh, b.ar.addr, b.count + 1)
  {
    hide Offset;
    if b.count > 0 {
      MulGap(sh.ratio, b.count);
      assert sh.ratio * b.count == b.count * sh.ratio;
    }
  }

  /** What stays to be covered after wide beat `i` is whole wide beats. */
  lemma TotalLeft(sh: Shape, ar: A.Ar, i: nat)
    requires sh.Valid() && i <= ar.len
    ensures Total(sh, ar) - FirstOf(sh, ar.addr, i + 1) == (ar.len - i) * sh.ratio
    ensures FirstOf(sh, ar.addr, i + 1) <= Total(sh, ar)
    ensures FirstOf(sh, ar.addr, i + 1) == Total(sh, ar) <==> i == ar.len
  {
    hide Offset;
    assert (ar.len + 1) * sh.ratio - (i + 1) * sh.ratio == (ar.len - i) * sh.ratio;
    MulGap(sh.ratio, ar.len - i);
    assert sh.ratio * (ar.len - i) == (ar.len - i) * sh.ratio;
  }

  lemma StartServes(g: Geometry, f: Fsm, early: bool, i: In)
    requires g.Valid() && ArFire(f, i) && WellSized(g, i.ar.value.size) && f.data == Zeros(g.segs)
    ensures Serving(g, NextFsm(g, f, early, i), Burst(i.ar.value, [], 0, Asks(g, f, early, i)))
  {
    var ar := i.ar.value;
    var sh := ShapeOf(g, ar.size);
    var off := Offset(sh, ar.addr);
    var n := NextFsm(g, f, early, i);
    var m := n.mAr.value;
    assert FirstOf(sh, ar.addr, 1) == 1 * sh.ratio - off;
    if ar.size > g.strb {
      LimitedFits(ar.len, sh.ratio, 256 / sh.ratio, off);
    } else {
      assert off == 0;
    }
    hide WellSized, Limited, Offset, BeatAddr;
    assert BeatAddr(sh, ar.addr, 0) % W32 == ar.addr by { FirstAddr(sh, ar.addr); }
    assert [m][..0] == [];
    assert Covered([m]) == m.len + 1;
  }

  lemma FirstAddr(sh: Shape, addr: Word)
    requires sh.Valid()
    ensures BeatAddr(sh, addr, 0) % W32 == addr
  {
  }

  /** When a narrow beat is taken, the address bit, the counts and the master burst agree: a wide
      beat is full exactly at a crossing, a master burst ends only there, and the burst ends
      exactly at the crossing of its last wide beat. */
  lemma TakeFacts(g: Geometry, f: Fsm, b: Burst)
    requires g.Valid() && g.Spans() && Serving(g, f, b)
    ensures var sh, t := ShapeOf(g, b.ar.size), |b.narrows|;
            && (Crosses(f) <==> Offset(sh, b.ar.addr) + t + 1 == (b.count + 1) * sh.ratio)
            && (Crosses(f) <==> t + 1 == FirstOf(sh, b.ar.addr, b.count + 1))
            && (f.mBurst == 0 ==> Crosses(f))
            && (Ends(f) <==> Crosses(f) && b.count == b.ar.len)
            && (Ends(f) ==> t + 1 == Total(sh, b.ar))
            && 0 <= FirstOf(sh, b.ar.addr, b.count) <= t
  {
    var sh, t := ShapeOf(g, b.ar.size), |b.narrows|;
    CrossesIff(g, f, b.ar, t, b.count);
    BlockOf(sh, b);
    TotalLeft(sh, b.ar, b.count);
    Crossing(Offset(sh, b.ar.addr) + t, b.count, sh.ratio);
    hide WellSized, A.Geometry.Spans, Crosses, BeatAddr, Offset, Merged, LastError, FirstOf, Total, Tiled;
  }

  /** What a taken beat does to the registers that place the next one. */
  lemma TakeFields(g: Geometry, f: Fsm, early: bool, i: In)
    requires g.Valid() && f.busy && RFire(f, i)
    ensures var n := NextFsm(g, f, early, i);
            && (n.busy <==> !Ends(f))
            && n.id == f.id && n.size == f.size && n.mSize == f.mSize && n.attributes == f.attributes
            && n.addr == NextAddr(f) && n.burst == if Crosses(f) then Less(f.burst) else f.burst
  {
    hide NextAddr, Crosses, Placed, Resp, ShapeOf;
  }

  lemma PlacingStep(g: Geometry, f: Fsm, early: bool, b: Burst, i: In)
    requires g.Valid() && g.Spans() && Serving(g, f, b) && RFire(f, i)
    ensures var n, b2 := NextFsm(g, f, early, i), Grown(g, b, f, early, i);
            && (n.busy <==> !Ends(f))
            && (n.busy ==> Placing(g, n, b2))
            && b2.count == b.count + (if Crosses(f) then 1 else 0)
  {
    hide WellSized, A.Geometry.Spans, Crosses, BeatAddr, Offset, Merged, LastError, FirstOf, Total, Tiled, Covered,
      NextAddr, Placed, ShapeOf, Resp, Merging, Asking, Asks, NextFsm, Ends;
    var sh, t := ShapeOf(g, b.ar.size), |b.narrows|;
    TakeFacts(g, f, b);
    NextBeat(g, f, b.ar, t);
    NextTurn(Offset(sh, b.ar.addr) + t, b.count, sh.ratio);
    TakeFields(g, f, early, i);
  }

  lemma NextTurn(u: nat, i: nat, ratio: nat)
    requires ratio > 0 && i * ratio <= u < (i + 1) * ratio
    ensures u + 1 == (i + 1) * ratio ==> (i + 1) * ratio <= u + 1 < (i + 1 + 1) * ratio
    ensures u + 1 != (i + 1) * ratio ==> i * ratio <= u + 1 < (i + 1) * ratio
  {
    assert (i + 1 + 1) * ratio == (i + 1) * ratio + ratio;
  }

  lemma {:induction false} MergedStays(g: Geometry, b: Burst, b2: Burst, lo: nat, hi: nat)
    requires g.Valid() && b.ar.size > 0 && b.ar == b2.ar && b.narrows <= b2.narrows && hi <= |b.narrows|
    ensures Merged(g, b2, lo, hi) == Merged(g, b, lo, hi)
    ensures LastError(b2.narrows, hi) == LastError(b.narrows, hi)
    decreases hi
  {
    hide BeatAddr, A.Seg;
    if hi > 0 {
      MergedStays(g, b, b2, lo, hi - 1);
    }
  }

  /** The register holds the segments merged so far, and after this beat the wide beat's. */
  lemma PlacedIs(g: Geometry, f: Fsm, b: Burst, b2: Burst, r: NarrowBeat)
    requires g.Valid() && g.Spans() && Serving(g, f, b)
    requires b2.ar == b.ar && b2.narrows == b.narrows + [r]
    ensures var sh, t := ShapeOf(g, b.ar.size), |b.narrows|;
            && FirstOf(sh, b.ar.addr, b.count) >= 0
            && Placed(g, f, r) == Merged(g, b2, FirstOf(sh, b.ar.addr, b.count), t + 1)
            && Resp(f, r) == LastError(b2.narrows, t + 1)
  {
    var sh, t := ShapeOf(g, b.ar.size), |b.narrows|;
    BlockOf(sh, b);
    P.WrapKeeps(g, BeatAddr(sh, b.ar.addr, t));
    hide WellSized, A.Geometry.Spans, BeatAddr, Offset, FirstOf, Total, Tiled, Covered, A.Seg;
    MergedStays(g, b, b2, FirstOf(sh, b.ar.addr, b.count), t);
    assert b2.narrows[t] == r;
  }

  lemma MergingStep(g: Geometry, f: Fsm, early: bool, b: Burst, i: In)
    requires g.Valid() && g.Spans() && Serving(g, f, b) && RFire(f, i)
    ensures var n, b2 := NextFsm(g, f, early, i), Grown(g, b, f, early, i);
            && (n.busy ==> Merging(g, n, b2))
            && (Crosses(f) ==> n.data == Zeros(g.segs))
            && (Emit(g, f, i).Some? <==> Crosses(f))
            && (Crosses(f) ==> Emit(g, f, i) == Some(BeatOf(g, b2, b.count)))
  {
    var sh, t := ShapeOf(g, b.ar.size), |b.narrows|;
    var b2 := Grown(g, b, f, early, i);
    TakeFacts(g, f, b);
    PlacedIs(g, f, b, b2, i.r.value);
    PlacingStep(g, f, early, b, i);
    EmptyMerge(g, b2, t + 1);
    hide WellSized, A.Geometry.Spans, Crosses, BeatAddr, Offset, LastError, Merged, FirstOf, Total, Tiled, Covered,
      NextAddr, Placed, ShapeOf, Resp, Asking;
  }

  lemma EmptyMerge(g: Geometry, b: Burst, t: nat)
    requires g.Valid() && b.ar.size > 0
    ensures Merged(g, b, t, t) == Zeros(g.segs)
  {
  }

  function NextLen(f: Fsm, ratio: nat): Len {
    var beats := Less(f.burst);
    if beats * ratio >= 256 then 255 else (beats * ratio + (ratio - 1)) % 256
  }

  /** What a taken beat does to the master burst in progress, given that one ends only at a crossing. */
  lemma TakeAsks(g: Geometry, f: Fsm, early: bool, i: In)
    requires g.Valid() && f.busy && RFire(f, i) && (f.mBurst == 0 ==> Crosses(f))
    ensures var n, l := NextFsm(g, f, early, i), NextLen(f, ShapeOf(g, f.size).ratio);
            && n.mBurst == (if f.mBurst != 0 then f.mBurst - 1 else l)
            && Asks(g, f, early, i) == if f.mBurst == 0 && f.burst != 0
                                       then [MasterAr(f.id, NextAddr(f), l, f.mSize, f.attributes)] else []
  {
    hide NextAddr, Crosses, Placed, Resp, ShapeOf;
  }

  /** A master burst counts down; the next one covers what follows, up to a wide boundary. */
  lemma AskingStep(g: Geometry, f: Fsm, early: bool, b: Burst, i: In)
    requires g.Valid() && g.Spans() && Serving(g, f, b) && RFire(f, i)
    ensures var n, b2 := NextFsm(g, f, early, i), Grown(g, b, f, early, i);
            if n.busy then Asking(g, n, b2)
            else Tiled(ShapeOf(g, b.ar.size), b.ar, b2.mars) && Covered(b2.mars) == Total(ShapeOf(g, b.ar.size), b.ar)
  {
    hide WellSized, A.Geometry.Spans, Crosses, BeatAddr, Offset, LastError, Merged, FirstOf, Total, Tiled, Covered,
      NextAddr, Placed, Resp, Merging, Asks, NextFsm, Ends, ShapeOf, NextLen;
    var sh, t := ShapeOf(g, b.ar.size), |b.narrows|;
    TakeFacts(g, f, b);
    TakeFields(g, f, early, i);
    TakeAsks(g, f, early, i);
    EndsMeans(f);
    if f.mBurst == 0 && f.burst != 0 {
      NextMaster(g, f, b);
      NextBeat(g, f, b.ar, t);
      TiledSnoc(sh, b.ar, b.mars, MasterAr(f.id, NextAddr(f), NextLen(f, sh.ratio), f.mSize, f.attributes));
    } else {
      assert b.mars + [] == b.mars;
    }
  }

  lemma EndsMeans(f: Fsm)
    ensures Ends(f) <==> f.mBurst == 0 && f.burst == 0
  {
  }

  lemma NextMaster(g: Geometry, f: Fsm, b: Burst)
    requires g.Valid() && g.Spans() && Serving(g, f, b) && f.mBurst == 0 && f.burst != 0
    ensures var sh, t := ShapeOf(g, b.ar.size), |b.narrows|;
            var l := NextLen(f, sh.ratio);
            && t + 1 + l + 1 <= Total(sh, b.ar)
            && (Offset(sh, b.ar.addr) + t + 1 + l + 1) % sh.ratio == 0
  {
    hide WellSized, A.Geometry.Spans, Crosses, BeatAddr, Offset, LastError, Merged, FirstOf, Total, Tiled, Covered,
      ShapeOf;
    var sh, t := ShapeOf(g, b.ar.size), |b.narrows|;
    TakeFacts(g, f, b);
    TotalLeft(sh, b.ar, b.count);
    RatioDivides(g, b.ar.size);
    NextLenFits(f.burst - 1, sh.ratio, 256 / sh.ratio, b.count + 1);
  }

  lemma RatioDivides(g: Geometry, size: nat)
    requires g.Valid() && WellSized(g, size)
    ensures 256 == ShapeOf(g, size).ratio * (256 / ShapeOf(g, size).ratio)
  {
  }

  /** A clock of a burst: nothing changes, or its next narrow beat is merged; a full wide beat is
      the one the burst's addresses give; and the burst ends complete. */
  lemma BurstStep(g: Geometry, f: Fsm, early: bool, b: Burst, i: In)
    requires g.Valid() && g.Spans() && Serving(g, f, b)
    ensures var n, b2 := NextFsm(g, f, early, i), Grown(g, b, f, early, i);
            && (if n.busy then Serving(g, n, b2) else Complete(g, b2) && n.data == Zeros(g.segs))
            && b2.ar == b.ar
            && (Emit(g, f, i).Some? ==> b2.count == b.count + 1 && b2.ar == b.ar
                                        && Emit(g, f, i).value == BeatOf(g, b2, b.count))
            && b.narrows <= b2.narrows
  {
    hide WellSized, A.Geometry.Spans, Crosses, NextFsm, Placing, Merging, Asking, Complete, Merged, Total, Tiled,
      Covered, BeatOf, Ends, Asks, FirstOf, Offset, ShapeOf;
    if RFire(f, i) {
      PlacingStep(g, f, early, b, i);
      MergingStep(g, f, early, b, i);
      AskingStep(g, f, early, b, i);
      TakeFacts(g, f, b);
      if Ends(f) {
        LastStep(g, f, early, b, i);
      }
    } else {
      WaitStep(g, f, early, b, i);
    }
  }

  lemma LastStep(g: Geometry, f: Fsm, early: bool, b: Burst, i: In)
    requires g.Valid() && g.Spans() && Serving(g, f, b) && RFire(f, i) && Ends(f)
    requires var b2 := Grown(g, b, f, early, i);
             && b2.count == b.count + 1
             && Tiled(ShapeOf(g, b.ar.size), b.ar, b2.mars) && Covered(b2.mars) == Total(ShapeOf(g, b.ar.size), b.ar)
    ensures Complete(g, Grown(g, b, f, early, i))
  {
    TakeFacts(g, f, b);
    hide WellSized, A.Geometry.Spans, Crosses, NextFsm, Merging, Asking, Merged, Total, Tiled, Covered,
      BeatOf, Asks, FirstOf, Offset, BeatAddr;
  }

  /** A clock that takes no narrow beat leaves the burst as it stands. */
  lemma WaitStep(g: Geometry, f: Fsm, early: bool, b: Burst, i: In)
    requires g.Valid() && Serving(g, f, b) && !RFire(f, i)
    ensures Grown(g, b, f, early, i) == b && Emit(g, f, i).None?
    ensures NextFsm(g, f, early, i).busy && Serving(g, NextFsm(g, f, early, i), b)
  {
    hide WellSized, A.Geometry.Spans, Crosses, Merged, Total, Tiled, Covered, BeatOf, Ends, FirstOf, Offset,
      ShapeOf, BeatAddr;
    assert b.mars + [] == b.mars;
  }

  /** The first `n` wide beats lie within `taken` narrow beats. */
  ghost predicate Within(sh: Shape, addr: Word, n: nat, taken: nat)
    requires sh.Valid()
  {
    forall k: nat :: k <= n ==> 0 <= FirstOf(sh, addr, k) <= taken
  }

  /** Wide beats already given stay what they are. */
  lemma {:induction false} BeatsStay(g: Geometry, b: Burst, b2: Burst, n: nat)
    requires g.Valid() && b.ar.size > 0 && b.ar == b2.ar && b.narrows <= b2.narrows
    requires Within(ShapeOf(g, b.ar.size), b.ar.addr, n, |b.narrows|)
    ensures BeatsOf(g, b2, n) == BeatsOf(g, b, n)
  {
    if n > 0 {
      hide ShapeOf, FirstOf, Merged, LastError;
      BeatsStay(g, b, b2, n - 1);
      var sh := ShapeOf(g, b.ar.size);
      assert FirstOf(sh, b.ar.addr, n) <= |b.narrows| && FirstOf(sh, b.ar.addr, n - 1) >= 0;
      MergedStays(g, b, b2, FirstOf(sh, b.ar.addr, n - 1), FirstOf(sh, b.ar.addr, n));
    }
  }

  /** The wide beats given so far come from the narrow beats already taken. */
  lemma TakenCovers(g: Geometry, f: Fsm, b: Burst)
    requires g.Valid() && Serving(g, f, b)
    ensures Within(ShapeOf(g, b.ar.size), b.ar.addr, b.count, |b.narrows|)
  {
    var sh := ShapeOf(g, b.ar.size);
    assert b.count * sh.ratio <= Offset(sh, b.ar.addr) + |b.narrows|;
    hide ShapeOf, WellSized, Merging, Asking, BeatAddr;
    forall k: nat | k <= b.count ensures 0 <= FirstOf(sh, b.ar.addr, k) <= |b.narrows| {
      FirstBounds(b.count, k, sh.ratio, Offset(sh, b.ar.addr), |b.narrows|);
    }
  }

  lemma FirstBounds(i: nat, k: nat, ratio: nat, off: nat, t: nat)
    requires off < ratio && k <= i && i * ratio <= off + t
    ensures k > 0 ==> 0 <= k * ratio - off <= t
  {
    assert (i - k) * ratio == i * ratio - k * ratio;
    MulGap(ratio, i - k);
    assert ratio * (i - k) == (i - k) * ratio;
    MulGap(ratio, k);
    assert ratio * k == k * ratio;
  }
}
