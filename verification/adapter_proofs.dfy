/** The address arithmetic of the width adapter and the invariant of the burst in service. */
module AdapterProofs {
  import opened Options
  import opened Words
  import opened Skid
  import opened AdapterModel

  // ---------------------------------------------------------------- arithmetic

  lemma AddMultiple(x: nat, t: nat, d: nat)
    requires d > 0
    ensures (x + t * d) / d == x / d + t
  {
    assert x + t * d == (x / d + t) * d + x % d;
    DivUnique(x + t * d, x / d + t, d, x % d);
  }

  /** Wrapping an address keeps its segment and the parity of its wide beat. */
  lemma WrapKeeps(g: Geometry, a: nat)
    requires g.Valid() && g.Spans()
    ensures Seg(g, a % W32) == Seg(g, a)
    ensures WideOf(g, a % W32) % 2 == WideOf(g, a) % 2
  {
    var t, x := a / W32, a % W32;
    assert a == x + t * W32;
    var m := g.Wide();
    assert m > 0 by { MulGap(g.strb, g.segs); }
    assert t * W32 == t * (2 * g.half) * m;
    AddMultiple(x, t * (2 * g.half), m);
    ModShift(x / m, t * g.half, 2);
    assert t * (2 * g.half) == t * g.half * 2;
    var u := t * (2 * g.half) * g.segs;
    assert t * W32 == u * g.strb;
    AddMultiple(x, u, g.strb);
    ModShift(x / g.strb, t * (2 * g.half), g.segs);
  }

  /** The next full-width beat lies in the same wide beat or in the next one. */
  lemma NextWide(g: Geometry, a: nat)
    requires g.Valid()
    ensures WideOf(g, a) <= WideOf(g, a + g.strb) <= WideOf(g, a) + 1
  {
    var m := g.Wide();
    assert m >= g.strb > 0 by { MulGap(g.strb, g.segs - 1); assert m == g.strb * (g.segs - 1) + g.strb; }
    var q, r := a / m, a % m;
    assert a == q * m + r;
    if r + g.strb < m {
      DivUnique(a + g.strb, q, m, r + g.strb);
    } else {
      assert a + g.strb == (q + 1) * m + (r + g.strb - m);
      DivUnique(a + g.strb, q + 1, m, r + g.strb - m);
    }
  }

  lemma {:induction false} WideGrows(g: Geometry, ar: Ar, k: nat, n: nat)
    requires g.Valid() && ar.size == g.strb && k <= n
    ensures WideOf(g, BeatAddr(ar, k)) <= WideOf(g, BeatAddr(ar, n))
    decreases n - k
  {
    if k < n {
      WideGrows(g, ar, k, n - 1);
      BeatAddrStep(ar, n - 1);
      NextWide(g, BeatAddr(ar, n - 1));
    }
  }

  lemma BeatAddrStep(ar: Ar, k: nat)
    ensures BeatAddr(ar, k + 1) == BeatAddr(ar, k) + ar.size
    ensures BeatAddr(ar, 0) == ar.addr
  {
  }

  /** The wide beats between two addresses are the segments between them, rounded from the first. */
  lemma SegmentCount(a: nat, x: nat, n: nat)
    requires n > 0
    ensures (a + x) / n - a / n == (x + a % n) / n
  {
    AddMultiple(x + a % n, a / n, n);
    assert a + x == x + a % n + (a / n) * n;
  }

  lemma WideIsSegs(g: Geometry, x: nat, a: nat)
    requires g.Valid() && a == x / g.strb
    ensures WideOf(g, x) == a / g.segs && Seg(g, x) == a % g.segs
  {
    DivDiv(x, g.strb, g.segs);
  }

  lemma BeatSegs(g: Geometry, ar: Ar, a: nat)
    requires g.Valid() && ar.size == g.strb && a == ar.addr / g.strb
    ensures BeatAddr(ar, ar.len) / g.strb == a + ar.len
  {
    AddMultiple(ar.addr, ar.len, g.strb);
  }

  /** The length sent on is exactly the number of wide beats, less one, that the bytes of the
      narrow burst lie in: the eight bits of the register suffice. */
  lemma {:induction false} ConvertedLenCounts(g: Geometry, ar: Ar)
    requires g.Valid() && Converts(g, ar)
    ensures ConvertedLen(g, ar) == WideIndex(g, ar, ar.len)
  {
    hide WideOf, Seg, BeatAddr, Geometry.Spans, Geometry.Wide;
    var a := ar.addr / g.strb;
    BeatSegs(g, ar, a);
    WideIsSegs(g, ar.addr, a);
    WideIsSegs(g, BeatAddr(ar, ar.len), a + ar.len);
    LenArith(ar.len, a, g.segs);
  }

  lemma LenArith(len: Len, a: nat, n: nat)
    requires n > 0
    ensures (len + a % n) / n % 256 == (a + len) / n - a / n
  {
    SegmentCount(a, len, n);
    EightBits(len, a % n, n);
  }

  lemma EightBits(len: Len, j: nat, n: nat)
    requires j < n
    ensures (len + j) / n < 256
  {
    var c := (len + j) / n;
    assert n * c <= len + j < 255 + n;
    assert n * (c - 256) == n * c - n * 256 && n * 255 >= 255;
    MulGap(n, c - 255);
    assert c >= 256 ==> n * (c - 255) >= n;
  }

  // ---------------------------------------------------------------- the burst in service

  function WidesNeeded(g: Geometry, ar: Ar): int
    requires g.Valid()
  {
    WideIndex(g, ar, ar.len) + 1
  }

  /** A finished burst has had all its beats and has used up all its wide beats. */
  predicate Complete(g: Geometry, b: Burst)
    requires g.Valid()
  {
    b.count == b.ar.len + 1 && |b.wides| == WidesNeeded(g, b.ar)
  }

  /** Where the state machine stands in the burst. */
  ghost predicate Serving(g: Geometry, f: Fsm, b: Burst)
    requires g.Valid()
  {
    && b.count <= b.ar.len
    && f.id == b.ar.id && f.size == b.ar.size
    && f.addr == BeatAddr(b.ar, b.count) % W32
    && (match f.phase
        case Idle => false
        case Data => !Converts(g, b.ar) && |b.wides| == b.count
        case Read =>
          && Converts(g, b.ar) && f.burst == b.ar.len - b.count
          && |b.wides| == WideIndex(g, b.ar, b.count)
          && (b.count > 0 ==> WideIndex(g, b.ar, b.count - 1) < |b.wides|)
        case Split =>
          && Converts(g, b.ar) && f.burst == b.ar.len - b.count && !f.rReady
          && |b.wides| == WideIndex(g, b.ar, b.count) + 1 && b.wides != [] && f.held == b.wides[|b.wides| - 1])
  }

  lemma StartServes(g: Geometry, f: Fsm, ready: bool, early: bool, i: In)
    requires g.Valid() && ArFire(f, i)
    ensures Serving(g, NextFsm(g, f, ready, early, i), Burst(i.ar.value, [], 0))
  {
    BeatAddrStep(i.ar.value, 0);
  }

  /** The address bit the hardware compares tells when the next beat needs another wide beat. */
  lemma {:induction false} CrossesIsNextWide(g: Geometry, f: Fsm, b: Burst)
    requires g.Valid() && g.Spans() && Converts(g, b.ar)
    requires f.size == b.ar.size && f.addr == BeatAddr(b.ar, b.count) % W32
    ensures NextAddr(f) == BeatAddr(b.ar, b.count + 1) % W32
    ensures WideIndex(g, b.ar, b.count + 1) == WideIndex(g, b.ar, b.count) + if Crosses(g, f) then 1 else 0
  {
    hide WideOf, Seg, BeatAddr, NextAddr, Geometry.Spans;
    var a := BeatAddr(b.ar, b.count);
    BeatAddrStep(b.ar, b.count);
    AddrWraps(f, a);
    WrapKeeps(g, a);
    WrapKeeps(g, a + g.strb);
    NextWide(g, a);
  }

  lemma AddrWraps(f: Fsm, a: nat)
    requires f.addr == a % W32
    ensures NextAddr(f) == (a + f.size) % W32
  {
    assert f.addr + f.size + (a / W32) * W32 == a + f.size;
    ModShift(f.addr + f.size, a / W32, W32);
  }

  /** A clock in a burst: the beat offered is the burst's next one, and the machine stands one
      beat further, or the burst is complete. */
  lemma BurstStep(g: Geometry, s: State, early: bool, b: Burst, i: In)
    requires g.Valid() && g.Spans()
    requires Serving(g, s.f, b)
    requires s.f.phase.Data? && RFire(s.f, i) ==> (i.r.value.last <==> |b.wides| == b.ar.len)
    ensures
      var n, b2 := NextFsm(g, s.f, s.k.ready, early, i), Grown(b, g, s, i);
      && (if n.phase.Idle? then Complete(g, b2) && !n.rReady else Serving(g, n, b2))
      && (Emit(g, s.f, s.k.ready, i).Some? ==>
            b2.count == b.count + 1 && Emit(g, s.f, s.k.ready, i).value == BeatOf(g, b2, b.count))
  {
    hide WideOf, Geometry.Spans, NextAddr, BeatAddr, Seg, Crosses, MasterArOf;
    var a := BeatAddr(b.ar, b.count);
    WrapKeeps(g, a);
    BeatAddrStep(b.ar, 0);
    BeatAddrStep(b.ar, b.count);
    AddrWraps(s.f, a);
    if Converts(g, b.ar) {
      CrossesIsNextWide(g, s.f, b);
      WideGrows(g, b.ar, 0, b.count);
    }
  }

  /** Beats already given stay what they are when another wide beat arrives. */
  lemma {:induction false} BeatsStay(g: Geometry, b: Burst, b2: Burst, n: nat)
    requires g.Valid() && b.ar == b2.ar && b.wides <= b2.wides
    requires forall k: nat :: k < n ==> WideIndex(g, b.ar, k) < |b.wides|
    ensures BeatsOf(g, b2, n) == BeatsOf(g, b, n)
  {
    if n > 0 {
      hide WideIndex, Seg, BeatAddr;
      BeatsStay(g, b, b2, n - 1);
      assert WideIndex(g, b.ar, n - 1) < |b.wides|;
    }
  }

  /** The beats given so far come from the wide beats already taken. */
  lemma TakenCovers(g: Geometry, f: Fsm, b: Burst, k: nat)
    requires g.Valid() && g.Spans()
    requires Serving(g, f, b) && k < b.count
    ensures WideIndex(g, b.ar, k) < |b.wides|
  {
    if Converts(g, b.ar) {
      if f.phase.Read? {
        WideGrows(g, b.ar, k, b.count - 1);
      } else {
        WideGrows(g, b.ar, k, b.count);
      }
    }
  }
}
