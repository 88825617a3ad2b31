/** The load/store unit appears twice: its control in the pipeline, with accesses as values, and the
    unit itself with its lanes. One clock keeps them in step, so they are the same machine. */
module LsuLink {
  import opened Options
  import P = PipeModel
  import L = LsuModel
  import Proofs = LsuProofs

  /** `view` is the operation an access of the pipeline stands for. */
  predicate SameRequest(view: P.Access -> L.Op, slot: P.Slot, req: L.Request) {
    match slot
    case Empty => req == L.NO_REQUEST
    case Request(acc) => req == L.Decode(Some(view(acc))) && !L.Misaligned(view(acc))
    case Unaligned(acc) => req == L.Decode(Some(view(acc))) && L.Misaligned(view(acc))
  }

  predicate Same(view: P.Access -> L.Op, s: P.State, l: L.State) {
    && SameRequest(view, s.slot, l.req)
    && s.pending == l.pending && s.unalignedE2 == l.unalignedE2
    && |s.respQ| == |l.fifo| <= L.FIFO_DEPTH
    && forall k :: 0 <= k < |s.respQ| ==> l.fifo[k] == L.EntryOf(L.Decode(Some(view(s.respQ[k]))))
  }

  /** Both see the same memory handshakes, and the operation issued is the access issued. */
  predicate SameInput(c: P.Config, view: P.Access -> L.Op, s: P.State, i: P.In, j: L.In) {
    && j.accept == i.memAccept
    && j.ack.Some? == i.memAck && (i.memAck ==> j.ack.value.error == i.memError)
    && (match P.IssuedAccess(c, s, i)
        case Empty => j.op == None
        case Request(acc) => j.op == Some(view(acc)) && !L.Misaligned(view(acc))
        case Unaligned(acc) => j.op == Some(view(acc)) && L.Misaligned(view(acc)))
  }

  lemma SameWires(view: P.Access -> L.Op, s: P.State, l: L.State, i: P.In, j: L.In)
    requires Same(view, s, l) && j.accept == i.memAccept
    requires j.ack.Some? == i.memAck && (i.memAck ==> j.ack.value.error == i.memError)
    ensures P.Delay(s, i) == L.Delay(l, j) && P.Requesting(s, i) == L.Requests(l, j) && P.LsuStall(s, i) == L.Stall(l, j)
    ensures s.slot.Empty? == !L.Busy(l.req) && s.slot.Unaligned? == l.req.unaligned
  {
    hide L.Decode, L.Misaligned;
    if !s.slot.Empty? {
      Proofs.DecodeShape(Some(view(s.slot.acc)));
    }
  }

  lemma NothingDecodes()
    ensures L.Decode(None) == L.NO_REQUEST
  {
  }

  /** One clock of the pipeline moves its load/store registers as the unit moves its own. */
  lemma {:induction false} SameStep(c: P.Config, view: P.Access -> L.Op, s: P.State, l: L.State, i: P.In, j: L.In)
    requires Same(view, s, l) && SameInput(c, view, s, i, j)
    ensures Same(view, P.Next(c, s, i), L.Next(l, j)) && P.LsuStall(s, i) == L.Stall(l, j)
  {
    hide L.Decode, L.Misaligned, P.IssuedAccess, P.NextE1, P.NextE2, P.NextWB, P.Issue, P.Operand, P.Stall, P.Squash;
    SameWires(view, s, l, i, j);
    NothingDecodes();
  }

  function UnitAfter(js: seq<L.In>): L.State {
    if js == [] then L.RESET else L.Next(UnitAfter(js[..|js| - 1]), js[|js| - 1])
  }

  predicate SameInputs(c: P.Config, view: P.Access -> L.Op, ins: seq<P.In>, js: seq<L.In>) {
    |ins| == |js| && (ins == [] ||
      var n := |ins| - 1;
      SameInputs(c, view, ins[..n], js[..n]) && SameInput(c, view, P.After(c, ins[..n]).s, ins[n], js[n]))
  }

  /** After any run of the pipeline the unit, given the same operations and handshakes, holds the
      request, the flags and the response queue of the pipeline's model. */
  lemma {:induction false} SameMachine(c: P.Config, view: P.Access -> L.Op, ins: seq<P.In>, js: seq<L.In>)
    requires SameInputs(c, view, ins, js)
    ensures Same(view, P.After(c, ins).s, UnitAfter(js))
  {
    if ins != [] {
      var n := |ins| - 1;
      SameMachine(c, view, ins[..n], js[..n]);
      SameStep(c, view, P.After(c, ins[..n]).s, UnitAfter(js[..n]), ins[n], js[n]);
    }
  }
}
