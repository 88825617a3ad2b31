/** The output stage of the width adapter: an output register and one spare register that catches
    the beat already under way when the receiver stops. */
module Skid {
  import opened Options

  /** `ready` is what the producer was told; the two slots hold at most one beat each. */
  datatype Slots<T> = Slots(ready: bool, out: Option<T>, temp: Option<T>)

  /** Ready for the next clock: the receiver takes, or the spare slot will not be needed. */
  predicate Early<T>(k: Slots<T>, offered: bool, take: bool) {
    take || (k.temp.None? && (k.out.None? || !offered))
  }

  function NextSlots<T>(k: Slots<T>, beat: Option<T>, take: bool): Slots<T> {
    var ready := Early(k, beat.Some?, take);
    if k.ready then
      if take || k.out.None? then Slots(ready, beat, k.temp) else Slots(ready, k.out, beat)
    else if take then Slots(ready, k.temp, None)
    else Slots(ready, k.out, k.temp)
  }

  predicate SlotsInv<T>(k: Slots<T>) {
    && (k.ready ==> k.temp.None?)
    && (k.temp.Some? ==> k.out.Some?)
  }

  /** The beats inside, next to leave first. */
  function Held<T>(k: Slots<T>): seq<T> { Opt(k.out) + Opt(k.temp) }

  /** The beat that leaves this clock. */
  function Leaves<T>(k: Slots<T>, take: bool): seq<T> { if take then Opt(k.out) else [] }

  /** A producer that offers only when it was told ready loses nothing, repeats nothing and
      reorders nothing. */
  lemma Conserves<T>(k: Slots<T>, beat: Option<T>, take: bool)
    requires SlotsInv(k)
    requires beat.Some? ==> k.ready
    ensures SlotsInv(NextSlots(k, beat, take))
    ensures Held(k) + Opt(beat) == Leaves(k, take) + Held(NextSlots(k, beat, take))
  {
  }

  datatype Tick<T> = Tick(beat: Option<T>, take: bool)

  /** A run from reset, if the producer offers only when told ready, with the beats offered and
      the beats delivered. */
  function Run<T>(ticks: seq<Tick<T>>): (r: Option<(Slots<T>, seq<T>, seq<T>)>) {
    if ticks == [] then Some((Slots(false, None, None), [], []))
    else
      var t := ticks[|ticks| - 1];
      match Run(ticks[..|ticks| - 1])
      case None => None
      case Some((k, offered, delivered)) =>
        if t.beat.Some? && !k.ready then None
        else Some((NextSlots(k, t.beat, t.take), offered + Opt(t.beat), delivered + Leaves(k, t.take)))
  }

  /** Over every run: what was offered is what was delivered, then the output register, then the
      spare one; and ready means the spare one is free. */
  lemma {:induction false} NothingLost<T>(ticks: seq<Tick<T>>)
    requires Run(ticks).Some?
    ensures var (k, offered, delivered) := Run(ticks).value;
            && offered == delivered + Held(k)
            && SlotsInv(k)
  {
    if ticks != [] {
      var n := |ticks| - 1;
      NothingLost(ticks[..n]);
      var (k, offered, delivered) := Run(ticks[..n]).value;
      var t := ticks[n];
      Conserves(k, t.beat, t.take);
      calc {
        offered + Opt(t.beat);
        (delivered + Held(k)) + Opt(t.beat);
        delivered + (Held(k) + Opt(t.beat));
        delivered + (Leaves(k, t.take) + Held(NextSlots(k, t.beat, t.take)));
        (delivered + Leaves(k, t.take)) + Held(NextSlots(k, t.beat, t.take));
      }
    }
  }

  class SkidBuffer<T> {
    var ready: bool
    var outValid: bool
    var out: T
    var tempValid: bool
    var temp: T

    ghost function View(): Slots<T>
      reads this
    {
      Slots(ready, if outValid then Some(out) else None, if tempValid then Some(temp) else None)
    }

    constructor (fill: T)
      ensures View() == Slots(false, None, None)
    {
      ready, outValid, tempValid, out, temp := false, false, false, fill, fill;
    }

    /** The ready the producer's registers take this clock. */
    function ReadyEarly(offered: bool, take: bool): (r: bool)
      reads this
      ensures r == Early(View(), offered, take)
    {
      take || (!tempValid && (!outValid || !offered))
    }

    /** One clock edge. */
    method Step(valid: bool, beat: T, take: bool)
      modifies this
      ensures View() == NextSlots(old(View()), if valid then Some(beat) else None, take)
    {
      var nextReady := ReadyEarly(valid, take);
      if ready {
        if take || !outValid {
          outValid, out := valid, beat;
        } else {
          tempValid, temp := valid, beat;
        }
      } else if take {
        outValid, out := tempValid, temp;
        tempValid := false;
      }
      ready := nextReady;
    }
  }
}
