/** The data port's bus side makes progress whenever the bus does: no pattern of handshakes leaves a
    call unanswered for more than two acts of the bus a call. */
module BridgeProgress {
  import opened Options
  import opened Words
  import opened Bridge
  import D = DataPort

  /** The bus does what the bridge waits for: it answers the open transaction, or takes what is still
      missing of the call at the head. */
  predicate Acts(s: State, i: In) {
    if s.pending then i.answer.Some?
    else s.reqs != [] && (if s.reqs[0].rd then i.arReady else (s.awInhibit || i.awReady) && (s.wInhibit || i.wReady))
  }

  predicate LegalFrom(s: State, ins: seq<In>)
    decreases |ins|
  {
    ins == [] || ((ins[0].answer.Some? ==> s.pending) && LegalFrom(Next(s, ins[0]), ins[1..]))
  }

  function Acted(s: State, ins: seq<In>): nat
    decreases |ins|
  {
    if ins == [] then 0 else (if Acts(s, ins[0]) then 1 else 0) + Acted(Next(s, ins[0]), ins[1..])
  }

  function Answers(ins: seq<In>): nat {
    if ins == [] then 0 else (if ins[0].answer.Some? then 1 else 0) + Answers(ins[1..])
  }

  /** An answer makes room for the next call, and an act that is no answer starts one. */
  lemma ActStep(s: State, i: In, n: nat)
    requires Queues(s) && (i.answer.Some? ==> s.pending) && 0 < n <= |s.tags|
    ensures var (s', n') := (Next(s, i), if i.answer.Some? then n - 1 else n);
            && n' <= |s'.tags|
            && 2 * n' - (if s'.pending then 1 else 0) <= 2 * n - (if s.pending then 1 else 0) - (if Acts(s, i) then 1 else 0)
  {
  }

  lemma {:induction false} AnsweredWithin(s: State, ins: seq<In>, n: nat)
    requires Queues(s) && LegalFrom(s, ins) && n <= |s.tags|
    requires 2 * n - (if s.pending then 1 else 0) <= Acted(s, ins)
    ensures n <= Answers(ins)
    decreases |ins|
  {
    if n > 0 && ins != [] {
      ActStep(s, ins[0], n);
      QueuesStep(s, ins[0]);
      AnsweredWithin(Next(s, ins[0]), ins[1..], if ins[0].answer.Some? then n - 1 else n);
    }
  }

  /** After any run of the data port, all calls open on the bus side are answered once the bus has
      acted twice for each, whatever arrives meanwhile. */
  lemma {:induction false} OpenCallsAreAnswered(base: Word, before: seq<D.In>, ins: seq<In>)
    requires D.After(base, before).Some?
    requires var s := D.After(base, before).value.s.bridge; LegalFrom(s, ins) && 2 * |s.tags| <= Acted(s, ins)
    ensures |D.After(base, before).value.s.bridge.tags| <= Answers(ins)
  {
    D.Always(base, before);
    var s := D.After(base, before).value.s.bridge;
    AnsweredWithin(s, ins, |s.tags|);
  }
}
