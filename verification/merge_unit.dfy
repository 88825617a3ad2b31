/** The width adapter towards a narrower bus as registers, one clock at a time. */
module MergeUnit {
  import opened Options
  import opened Words
  import opened Skid
  import opened MergeModel

  class MergeAdapter {
    const g: Geometry
    const output: SkidBuffer<WideBeat>
    var f: Fsm

    ghost predicate Valid() { g.Valid() }

    ghost function View(): (s: State)
      reads this, output
    {
      State(f, output.View())
    }

    constructor (g: Geometry)
      requires g.Valid()
      ensures Valid() && this.g == g && fresh(output)
      ensures View() == State(Reset(g), Slots(false, None, None))
    {
      this.g := g;
      f := Reset(g);
      output := new SkidBuffer<WideBeat>(WideBeat(0, [], 0, false));
    }

    /** One clock edge. */
    method Step(i: In)
      requires Valid()
      modifies this, output
      ensures Valid() && View() == Next(g, old(View()), i)
    {
      hide Emit, NextFsm, Early, NextSlots;
      var beat := Emit(g, f, i);
      var early := output.ReadyEarly(beat.Some?, i.take);
      var next := ClockFsm(g, f, early, i);
      output.Step(beat.Some?, if beat.Some? then beat.value else WideBeat(0, [], 0, false), i.take);
      f := next;
    }
  }

  /** The next registers of the state machine, in the order the block assigns them. */
  method ClockFsm(g: Geometry, f: Fsm, early: bool, i: In) returns (n: Fsm)
    requires g.Valid()
    ensures n == NextFsm(g, f, early, i)
  {
    hide ShapeOf, Limited, Offset, Crosses, NextAddr, Placed, Resp;
    n := f.(arReady := false, rReady := false, mAr := if i.mArReady then None else f.mAr);
    if !f.busy {
      n := n.(resp := 0);
      if ArFire(f, i) && i.ar.value.size > 0 {
        n := Start(g, f, i.ar.value);
      } else {
        n := n.(arReady := f.mAr.None?);
      }
    } else {
      n := n.(rReady := early && f.mAr.None?);
      if RFire(f, i) {
        n := n.(data := Placed(g, f, i.r.value), resp := Resp(f, i.r.value), mBurst := Less(f.mBurst), addr := NextAddr(f));
        if Crosses(f) {
          n := n.(data := Zeros(g.segs), burst := Less(f.burst));
        }
        if f.mBurst == 0 {
          var len := NextLen(n.burst, ShapeOf(g, f.size).ratio);
          n := n.(mBurst := len, rReady := false);
          if f.burst == 0 {
            n := n.(busy := false, arReady := f.mAr.None?);
          } else {
            n := n.(mAr := Some(MasterAr(f.id, NextAddr(f), len, f.mSize, f.attributes)));
          }
        }
      }
    }
  }

  method NextLen(beats: Len, ratio: nat) returns (len: Len)
    ensures len == if beats * ratio >= 256 then 255 else (beats * ratio + (ratio - 1)) % 256
  {
    if beats * ratio >= 256 {
      len := 255;
    } else {
      len := (beats * ratio + (ratio - 1)) % 256;
    }
  }
}
