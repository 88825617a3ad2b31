/** The pending-interrupt register: events that arrive while software reads, changes and writes
    back the register are buffered so that the write does not lose them. */
module Pending {
  import opened Options
  import T = TrapsModel

  /** A write of the pending register, or of its supervisor bits only. */
  datatype Write = Write(super: bool, bits: set<nat>)

  const SUPER_IRQS: set<nat> := {1, 5, 9}

  /** `buffer` collects events from a read of the register on; `updating` lasts until it is written
      or an exception is taken. */
  datatype State = State(mip: set<nat>, buffer: set<nat>, updating: bool)

  /** `read` is up whenever an instruction issues whose top twelve bits are the register's number, CSR
      access or not. `raised` are the interrupt lines up this clock; `lowered` is the timer bit when the comparator
      matches without being armed. */
  datatype In = In(read: bool, write: Option<Write>, exception: bool, raised: set<nat>, lowered: set<nat>)

  function Merged(mip: set<nat>, w: Write): set<nat> {
    if w.super then (mip - SUPER_IRQS) + (w.bits * SUPER_IRQS) else w.bits * T.IRQS
  }

  predicate Buffers(s: State, i: In) { i.read || s.updating }

  function Events(s: State, i: In): set<nat> { (s.buffer + i.raised) - i.lowered }

  function Next(s: State, i: In): State {
    var mip := if i.write.Some? && !i.exception then Merged(s.mip, i.write.value) else s.mip;
    State(mip + Events(s, i),
          if Buffers(s, i) then Events(s, i) else {},
          if i.read then true else if i.write.Some? || i.exception then false else s.updating)
  }

  function RunAll(s: State, ins: seq<In>): State {
    if ins == [] then s else Next(RunAll(s, ins[..|ins| - 1]), ins[|ins| - 1])
  }

  /** From a read of the register on, with neither a write nor an exception. */
  predicate Updating(ins: seq<In>) {
    ins != [] && ins[0].read && forall i :: i in ins ==> i.write.None? && !i.exception
  }

  /** The events of a stretch of clocks, as far as no later clock lowers them. */
  function Arrived(before: set<nat>, ins: seq<In>): set<nat> {
    if ins == [] then before
    else (Arrived(before, ins[..|ins| - 1]) + ins[|ins| - 1].raised) - ins[|ins| - 1].lowered
  }

  lemma {:induction false} BufferCollects(s: State, ins: seq<In>)
    requires Updating(ins)
    ensures RunAll(s, ins).updating && RunAll(s, ins).buffer == Arrived(s.buffer, ins)
  {
    var n := |ins| - 1;
    assert ins[n] in ins;
    if n == 0 {
      assert ins[..0] == [];
    } else {
      assert Updating(ins[..n]);
      BufferCollects(s, ins[..n]);
    }
  }

  /** The register after the write: the value written, and exactly the events since the read, with
      whatever the buffer still held when the read began. Nothing that arrives meanwhile is lost. */
  lemma WriteKeepsEvents(s: State, ins: seq<In>, last: In)
    requires Updating(ins) && last.write.Some? && !last.exception
    ensures var before := RunAll(s, ins);
            && Next(before, last).mip == Merged(before.mip, last.write.value) + Arrived(s.buffer, ins + [last])
            && !Next(before, last).updating == !last.read
  {
    BufferCollects(s, ins);
    assert (ins + [last])[..|ins|] == ins;
  }

  /** An instruction that is no CSR access but carries the register's number opens the buffer and
      never writes: an event of that time comes back after a later update has cleared it, although
      no line was raised since. */
  lemma ReadOnlyLeavesStaleEvents(s: State, peek: In, idle: In, again: In, clear: In)
    requires s.buffer == {} && !s.updating
    requires peek == In(true, None, false, {}, {})
    requires idle == In(false, None, false, {11}, {})
    requires again == In(true, None, false, {}, {})
    requires clear == In(false, Some(Write(false, {})), false, {}, {})
    ensures var seen := RunAll(s, [peek, idle, again]);
            11 in seen.mip && 11 in Next(seen, clear).mip
  {
    var one, two, three := [peek], [peek, idle], [peek, idle, again];
    assert one[..0] == [] && two[..1] == one && three[..2] == two;
    assert RunAll(s, one) == Next(s, peek);
    assert RunAll(s, two) == Next(Next(s, peek), idle);
  }

  /** A stretch of clocks opened by a read with nothing buffered, in which bit `b` is quiet from
      `again` on, ends in a write that clears the bit. The bit is set again exactly if it arrived
      in the early part, so also if that was before the instruction that writes read the register. */
  lemma {:induction false} StaleIff(s: State, early: seq<In>, again: seq<In>, last: In, b: nat)
    requires s.buffer == {} && Updating(early + again) && last.write.Some? && !last.exception
    requires forall i :: i in again + [last] ==> b !in i.raised && b !in i.lowered
    requires b !in Merged(RunAll(s, early + again).mip, last.write.value)
    ensures b in Next(RunAll(s, early + again), last).mip <==> b in Arrived({}, early)
  {
    WriteKeepsEvents(s, early + again, last);
    assert early + again + [last] == early + (again + [last]);
    ArrivedSplits({}, early, again + [last]);
    QuietBit(Arrived({}, early), again + [last], b);
  }

  lemma {:induction false} ArrivedSplits(before: set<nat>, a: seq<In>, b: seq<In>)
    ensures Arrived(before, a + b) == Arrived(Arrived(before, a), b)
  {
    if b == [] {
      assert a + b == a;
    } else {
      assert (a + b)[..|a + b| - 1] == a + b[..|b| - 1];
      ArrivedSplits(before, a, b[..|b| - 1]);
    }
  }

  lemma {:induction false} QuietBit(before: set<nat>, ins: seq<In>, b: nat)
    requires forall i :: i in ins ==> b !in i.raised && b !in i.lowered
    ensures b in Arrived(before, ins) <==> b in before
  {
    if ins != [] {
      var n := |ins| - 1;
      assert ins[n] in ins;
      QuietBit(before, ins[..n], b);
    }
  }
}
