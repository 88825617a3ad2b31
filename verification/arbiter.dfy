/** The arbiter of the interconnect, fixed-priority or round-robin, with its priority encoder tree.
    Port vectors are sets of port numbers. */
module Arbiter {
  import opened Words

  // ---------------------------------------------------------------- priority encoder

  datatype Stage = Stage(valid: bool, code: nat)

  /** Block `n` of tree level `level` covers the 2 * 2^level inputs from n * 2 * 2^level on. */
  function Encode(r: set<nat>, lsb: bool, level: nat, n: nat): Stage
    decreases level
  {
    if level == 0 then
      Stage(2 * n in r || 2 * n + 1 in r, if lsb then (if 2 * n in r then 0 else 1) else if 2 * n + 1 in r then 1 else 0)
    else
      var lo, hi := Encode(r, lsb, level - 1, 2 * n), Encode(r, lsb, level - 1, 2 * n + 1);
      var low := if lsb then lo.valid else !hi.valid;
      Stage(lo.valid || hi.valid, if low then lo.code else Pow2(level) + hi.code)
  }

  function Span(level: nat): nat { Pow2(level + 1) }

  predicate InBlock(level: nat, n: nat, k: nat) { n * Span(level) <= k < (n + 1) * Span(level) }

  /** The tree finds the lowest or the highest input of its block. */
  lemma {:induction false} EncodeFinds(r: set<nat>, lsb: bool, level: nat, n: nat)
    ensures var e := Encode(r, lsb, level, n);
            var at := n * Span(level) + e.code;
            && (e.valid <==> exists k :: k in r && InBlock(level, n, k))
            && (e.valid ==> at in r && InBlock(level, n, at))
            && (e.valid ==> forall k :: k in r && InBlock(level, n, k) ==> if lsb then at <= k else k <= at)
    decreases level
  {
    if level == 0 {
      assert Span(0) == 2;
      if 2 * n in r { assert InBlock(0, n, 2 * n); }
      if 2 * n + 1 in r { assert InBlock(0, n, 2 * n + 1); }
    } else {
      EncodeFinds(r, lsb, level - 1, 2 * n);
      EncodeFinds(r, lsb, level - 1, 2 * n + 1);
      Halves(level, n);
      forall k ensures InBlock(level, n, k) <==> InBlock(level - 1, 2 * n, k) || InBlock(level - 1, 2 * n + 1, k) {
      }
    }
  }

  lemma Halves(level: nat, n: nat)
    requires level > 0
    ensures Span(level) == 2 * Span(level - 1) && Pow2(level) == Span(level - 1)
    ensures 2 * n * Span(level - 1) == n * Span(level)
    ensures (2 * n + 1) * Span(level - 1) == n * Span(level) + Pow2(level)
    ensures (2 * n + 2) * Span(level - 1) == (n + 1) * Span(level)
  {
  }

  /** The encoder of a vector of `ports` inputs: a tree of enough levels. */
  function Levels(ports: nat): (l: nat)
    ensures ports <= Span(l)
  {
    Depth(ports, 0)
  }

  function Depth(ports: nat, level: nat): (l: nat)
    ensures ports <= Span(l)
    decreases if ports > Span(level) then ports - Span(level) else 0
  {
    if ports <= Span(level) then level else Depth(ports, level + 1)
  }

  function First(ports: nat, lsb: bool, r: set<nat>): Stage { Encode(r, lsb, Levels(ports), 0) }

  // ---------------------------------------------------------------- arbiter

  datatype Config = Config(ports: nat, roundRobin: bool, block: bool, blockAck: bool, lsb: bool)

  /** The place of a port in priority order, first to last. */
  function Place(c: Config, k: nat): nat { if c.lsb || k >= c.ports then k else c.ports - 1 - k }

  predicate Within(c: Config, r: set<nat>) { forall k {:trigger k in r} :: k in r ==> k < c.ports }

  /** The encoder's contract: a member first in priority order, if there is any. */
  lemma FirstIs(c: Config, r: set<nat>)
    requires Within(c, r)
    ensures var e := First(c.ports, c.lsb, r);
            && (e.valid <==> r != {})
            && (e.valid ==> e.code in r && forall k {:trigger k in r} :: k in r ==> Place(c, e.code) <= Place(c, k))
  {
    var level := Levels(c.ports);
    EncodeFinds(r, c.lsb, level, 0);
    forall k | k in r ensures InBlock(level, 0, k) {
    }
    if r != {} {
      var some :| some in r;
      assert InBlock(level, 0, some);
    }
  }

  datatype State = State(valid: bool, grant: set<nat>, encoded: nat, mask: set<nat>)

  const RESET := State(false, {}, 0, {})

  datatype In = In(request: set<nat>, acknowledge: set<nat>)

  /** The ports after port `k` in priority order: the shifted mask. */
  function MaskAfter(c: Config, k: nat): set<nat> {
    set j: nat | j < c.ports && Later(c, k, j)
  }

  predicate Later(c: Config, k: nat, j: nat) { if c.lsb then k < j else j < k }

  predicate Holds(c: Config, s: State, i: In) {
    c.block && (if c.blockAck then s.valid && s.grant * i.acknowledge == {} else s.grant * i.request != {})
  }

  /** A new choice is made this clock. */
  predicate Decides(c: Config, s: State, i: In) { !Holds(c, s, i) && i.request != {} }

  function Choice(c: Config, s: State, i: In): nat {
    var masked := First(c.ports, c.lsb, i.request * s.mask);
    if c.roundRobin && masked.valid then masked.code else First(c.ports, c.lsb, i.request).code
  }

  function Next(c: Config, s: State, i: In): State {
    if Holds(c, s, i) then s
    else if First(c.ports, c.lsb, i.request).valid then
      var k := Choice(c, s, i);
      State(true, {k}, k, if c.roundRobin then MaskAfter(c, k) else s.mask)
    else State(false, {}, 0, s.mask)
  }

  function Run(c: Config, s: State, ins: seq<In>): State {
    if ins == [] then s else Next(c, Run(c, s, ins[..|ins| - 1]), ins[|ins| - 1])
  }

  predicate Legal(c: Config, ins: seq<In>) { forall i :: i in ins ==> Within(c, i.request) }

  // ---------------------------------------------------------------- grants

  /** A valid grant is one-hot and is the encoded port; no grant is empty. */
  predicate OneHot(c: Config, s: State) {
    if s.valid then s.grant == {s.encoded} && s.encoded < c.ports else s.grant == {}
  }

  /** A decision picks a requester: in fixed priority the first, in round robin the first after the
      last grant, or else the first. */
  lemma ChoiceIs(c: Config, s: State, i: In)
    requires Within(c, i.request) && i.request != {}
    ensures var k := Choice(c, s, i);
            && First(c.ports, c.lsb, i.request).valid
            && k in i.request
            && (c.roundRobin && i.request * s.mask != {} ==>
                  k in s.mask && forall j :: j in i.request && j in s.mask ==> Place(c, k) <= Place(c, j))
            && (!c.roundRobin || i.request * s.mask == {} ==> forall j :: j in i.request ==> Place(c, k) <= Place(c, j))
  {
    hide First;
    FirstIs(c, i.request);
    FirstIs(c, i.request * s.mask);
    forall j | j in i.request && j in s.mask ensures j in i.request * s.mask {
    }
  }

  lemma {:induction false} GrantIsOneHot(c: Config, ins: seq<In>)
    requires Legal(c, ins)
    ensures OneHot(c, Run(c, RESET, ins))
  {
    if ins != [] {
      hide First, Choice, MaskAfter;
      var n := |ins| - 1;
      GrantIsOneHot(c, ins[..n]);
      assert ins[n] in ins;
      if ins[n].request != {} {
        ChoiceIs(c, Run(c, RESET, ins[..n]), ins[n]);
      } else {
        FirstIs(c, ins[n].request);
      }
    }
  }

  /** A blocking arbiter keeps a valid grant until its port acknowledges, or drops its request;
      any other clock grants a requester, if there is one. */
  lemma HeldUntilReleased(c: Config, ins: seq<In>, i: In)
    requires Legal(c, ins) && Within(c, i.request)
    ensures var s := Run(c, RESET, ins);
            var n := Next(c, s, i);
            && (c.block && c.blockAck && s.valid && s.encoded !in i.acknowledge ==> n == s)
            && (c.block && !c.blockAck && s.valid && s.encoded in i.request ==> n == s)
            && (!Holds(c, s, i) ==> (n.valid <==> i.request != {}) && (n.valid ==> n.encoded in i.request))
  {
    hide First, Choice, MaskAfter;
    GrantIsOneHot(c, ins);
    var s := Run(c, RESET, ins);
    FirstIs(c, i.request);
    if i.request != {} {
      ChoiceIs(c, s, i);
    }
    assert s.valid ==> (s.grant * i.acknowledge == {} <==> s.encoded !in i.acknowledge) by {
      if s.encoded in i.acknowledge { assert s.valid ==> s.encoded in s.grant * i.acknowledge; }
    }
    assert s.valid && s.encoded in i.request ==> s.encoded in s.grant * i.request;
  }

  // ---------------------------------------------------------------- fairness

  /** The mask holds the ports after place `last`, that of the last decision. */
  ghost predicate MaskIs(c: Config, s: State, last: nat) {
    last < c.ports && forall k: nat :: k in s.mask <==> k < c.ports && Place(c, k) > last
  }

  /** How many ports come before port `k`, going round from the one after place `last`. */
  function Distance(c: Config, last: nat, k: nat): nat
    requires last < c.ports && k < c.ports
  {
    if Place(c, k) > last then Place(c, k) - last - 1 else Place(c, k) + c.ports - last - 1
  }

  lemma DecisionMovesOn(c: Config, s: State, last: nat, i: In, k: nat)
    requires c.roundRobin && MaskIs(c, s, last) && Within(c, i.request) && Decides(c, s, i) && k in i.request
    ensures var j := Choice(c, s, i);
            && j < c.ports
            && MaskIs(c, Next(c, s, i), Place(c, j))
            && (j != k ==> Distance(c, Place(c, j), k) < Distance(c, last, k))
  {
    hide First, Choice;
    ChoiceIs(c, s, i);
    var j := Choice(c, s, i);
    forall x | x in i.request && x in s.mask ensures x in i.request * s.mask {
    }
  }

  lemma NoDecisionKeepsMask(c: Config, s: State, i: In)
    requires Within(c, i.request) && !Decides(c, s, i)
    ensures Next(c, s, i).mask == s.mask
  {
    hide First, Choice;
    FirstIs(c, i.request);
  }

  /** Port `k` requests in every clock and is never chosen. */
  predicate Waits(c: Config, s: State, ins: seq<In>, k: nat)
    decreases |ins|
  {
    ins != [] ==>
      && k in ins[0].request
      && (Decides(c, s, ins[0]) ==> Choice(c, s, ins[0]) != k)
      && Waits(c, Next(c, s, ins[0]), ins[1..], k)
  }

  function Decisions(c: Config, s: State, ins: seq<In>): nat
    decreases |ins|
  {
    if ins == [] then 0
    else (if Decides(c, s, ins[0]) then 1 else 0) + Decisions(c, Next(c, s, ins[0]), ins[1..])
  }

  lemma {:induction false} WaitIsBounded(c: Config, s: State, last: nat, ins: seq<In>, k: nat)
    requires c.roundRobin && MaskIs(c, s, last) && Legal(c, ins) && k < c.ports && Waits(c, s, ins, k)
    ensures Decisions(c, s, ins) <= Distance(c, last, k)
    decreases |ins|
  {
    if ins != [] {
      hide MaskIs, Next, Choice, Distance, Decides;
      assert ins[0] in ins;
      var n := Next(c, s, ins[0]);
      assert Legal(c, ins[1..]) by { forall i | i in ins[1..] ensures Within(c, i.request) { assert i in ins; } }
      if Decides(c, s, ins[0]) {
        DecisionMovesOn(c, s, last, ins[0], k);
        WaitIsBounded(c, n, Place(c, Choice(c, s, ins[0])), ins[1..], k);
      } else {
        NoDecisionKeepsMask(c, s, ins[0]);
        SameMask(c, s, n, last);
        WaitIsBounded(c, n, last, ins[1..], k);
      }
    }
  }

  lemma SameMask(c: Config, s: State, n: State, last: nat)
    requires MaskIs(c, s, last) && n.mask == s.mask
    ensures MaskIs(c, n, last)
  {
  }

  lemma {:induction false} MaskAfterRun(c: Config, ins: seq<In>) returns (last: nat)
    requires c.roundRobin && c.ports > 0 && Legal(c, ins)
    ensures MaskIs(c, Run(c, RESET, ins), last)
  {
    if ins == [] {
      last := c.ports - 1;
    } else {
      hide First, Choice;
      var n := |ins| - 1;
      var before := MaskAfterRun(c, ins[..n]);
      var s := Run(c, RESET, ins[..n]);
      assert ins[n] in ins;
      if Decides(c, s, ins[n]) {
        var k :| k in ins[n].request;
        DecisionMovesOn(c, s, before, ins[n], k);
        last := Place(c, Choice(c, s, ins[n]));
      } else {
        NoDecisionKeepsMask(c, s, ins[n]);
        last := before;
      }
    }
  }

  /** Round robin is fair, for any number of ports and either priority direction: after any run, a
      port that goes on requesting is passed over in at most `ports - 1` decisions. */
  lemma RoundRobinIsFair(c: Config, before: seq<In>, ins: seq<In>, k: nat)
    requires c.roundRobin && Legal(c, before) && Legal(c, ins) && k < c.ports
    requires Waits(c, Run(c, RESET, before), ins, k)
    ensures Decisions(c, Run(c, RESET, before), ins) <= c.ports - 1
  {
    var last := MaskAfterRun(c, before);
    WaitIsBounded(c, Run(c, RESET, before), last, ins, k);
  }

  // ---------------------------------------------------------------- registers

  class ArbiterUnit {
    const c: Config
    var valid: bool
    var grant: set<nat>
    var encoded: nat
    var mask: set<nat>

    function View(): (s: State)
      reads this
    {
      State(valid, grant, encoded, mask)
    }

    constructor (c: Config)
      ensures View() == RESET && this.c == c
    {
      this.c := c;
      valid, grant, encoded, mask := false, {}, 0, {};
    }

    /** One clock edge. */
    method Step(i: In)
      modifies this
      ensures View() == Next(c, old(View()), i)
    {
      hide First, MaskAfter;
      if c.block && !c.blockAck && grant * i.request != {} {
        return;
      }
      if c.block && c.blockAck && valid && grant * i.acknowledge == {} {
        return;
      }
      var any := First(c.ports, c.lsb, i.request);
      var masked := First(c.ports, c.lsb, i.request * mask);
      if any.valid {
        var k := if c.roundRobin && masked.valid then masked.code else any.code;
        valid, grant, encoded := true, {k}, k;
        if c.roundRobin {
          mask := MaskAfter(c, k);
        }
      } else {
        valid, grant, encoded := false, {}, 0;
      }
    }
  }
}
