/** The width adapter as registers: the state machine and the output stage, one clock at a time. */
module AdapterUnit {
  import opened Options
  import opened Words
  import opened Skid
  import opened AdapterModel

  class ReadAdapter {
    const g: Geometry
    const output: SkidBuffer<NarrowBeat>
    var f: Fsm

    ghost predicate Valid() { g.Valid() }

    ghost function View(): (s: State)
      reads this, output
    {
      State(f, output.View())
    }

    constructor (g: Geometry)
      requires g.Valid()
      ensures Valid() && this.g == g && fresh(output)
      ensures View() == State(RESET, Slots(false, None, None))
    {
      this.g := g;
      f := RESET;
      output := new SkidBuffer<NarrowBeat>(NarrowBeat(0, 0, 0, false));
    }

    /** One clock edge. */
    method Step(i: In)
      requires Valid()
      modifies this, output
      ensures Valid() && View() == Next(g, old(View()), i)
    {
      hide Emit, NextFsm, Early, NextSlots;
      var ready := output.ready;
      var beat := Emit(g, f, ready, i);
      var early := output.ReadyEarly(beat.Some?, i.take);
      var next := ClockFsm(g, f, ready, early, i);
      output.Step(beat.Some?, if beat.Some? then beat.value else NarrowBeat(0, 0, 0, false), i.take);
      f := next;
    }
  }

  /** The next registers of the state machine, branch by branch. */
  method ClockFsm(g: Geometry, f: Fsm, ready: bool, early: bool, i: In) returns (n: Fsm)
    requires g.Valid()
    ensures n == NextFsm(g, f, ready, early, i)
  {
    hide Seg, WideOf, MasterArOf;
    n := f.(arReady := false, rReady := false, mAr := if i.mArReady then None else f.mAr);
    match f.phase {
      case Idle =>
        if ArFire(f, i) {
          n := Accept(g, n, early, i.ar.value);
        } else {
          n := n.(arReady := f.mAr.None?);
        }
      case Data =>
        n := n.(rReady := early);
        if RFire(f, i) {
          n := n.(addr := NextAddr(f));
          if i.r.value.last {
            n := n.(phase := Idle, rReady := false, arReady := f.mAr.None?);
          }
        }
      case Read =>
        n := n.(rReady := early);
        if RFire(f, i) {
          n := n.(held := i.r.value, burst := Less(f.burst), addr := NextAddr(f));
          if f.burst == 0 {
            n := n.(phase := Idle, rReady := false, arReady := f.mAr.None?);
          } else if !Crosses(g, f) {
            n := n.(phase := Split, rReady := false);
          }
        }
      case Split =>
        if ready {
          n := n.(burst := Less(f.burst), addr := NextAddr(f));
          if f.burst == 0 {
            n := n.(phase := Idle, arReady := f.mAr.None?);
          } else if Crosses(g, f) {
            n := n.(phase := Read, rReady := early);
          }
        }
    }
  }

  /** The registers that take a new burst. */
  method Accept(g: Geometry, f: Fsm, early: bool, ar: Ar) returns (n: Fsm)
    requires g.Valid()
    ensures n == f.(phase := if Converts(g, ar) then Read else Data, id := ar.id, addr := ar.addr, burst := ar.len,
                    size := ar.size, arReady := false, mAr := Some(MasterArOf(g, ar)), rReady := early)
  {
    hide Seg;
    n := f.(id := ar.id, addr := ar.addr, burst := ar.len, size := ar.size, arReady := false, rReady := early);
    if Converts(g, ar) {
      n := n.(phase := Read, mAr := Some(MasterAr(ar.id, ar.addr, ConvertedLen(g, ar), g.Wide(), ar.attributes)));
    } else {
      n := n.(phase := Data, mAr := Some(MasterAr(ar.id, ar.addr, ar.len, ar.size, ar.attributes)));
    }
  }
}
