/** The load/store unit in front of memory behaves as its operations run one after another on a
    little-endian byte memory. */
module LsuProofs {
  import opened Options
  import opened Words
  import opened Fifo
  import opened Ram
  import opened ByteMemory
  import opened LsuModel

  // ---------------------------------------------------------------- one access

  lemma RowOfAligned(a: Word)
    ensures Row(a - a % 4) == Row(a)
  {
    assert (a - a % 4) / 4 == a / 4;
  }

  /** Lane steering, RAM write and byte store agree. */
  lemma {:induction false} AccessIsExec(rows: seq<Lanes>, bytes: seq<Byte>, op: Op, fault: bool)
    requires |rows| >= ROWS && Holds(rows, bytes) && !Misaligned(op)
    ensures var r := Decode(Some(op));
            var addr := r.addr - r.addr % 4;
            Holds(if fault then rows else Write(rows, addr, r.data, r.strobes), ExecMem(bytes, op, fault))
  {
    hide Row, StoreLanes, StoreStrobes, StoreLE, Merge, Holds, Aligned;
    var a := Addr(op);
    RowOfAligned(a);
    assert Aligned(a % 4, op.width) by { InRow(a, op.width); }
    assert |bytes| == 4 * |rows| by { assert Holds(rows, bytes); Lengths(rows, bytes); }
    if !fault {
      if op.load {
        NoChange(rows, a - a % 4);
      } else {
        LaneStoreIsByteStore(rows, bytes, Row(a), a % 4, op.value, op.width);
      }
    }
  }

  lemma Lengths(rows: seq<Lanes>, bytes: seq<Byte>)
    requires Holds(rows, bytes)
    ensures |bytes| == 4 * |rows|
  {
  }

  lemma NoChange(rows: seq<Lanes>, addr: Word)
    requires |rows| >= ROWS
    ensures Write(rows, addr, ZERO, NO_STROBE) == rows
  {
    hide Row;
    assert Merge(rows[Row(addr)], ZERO, NO_STROBE) == rows[Row(addr)];
  }

  /** What the FIFO entry extracts from the word read is the reference's result. */
  lemma {:induction false} ExtractIsLoad(rows: seq<Lanes>, bytes: seq<Byte>, op: Op)
    requires |rows| >= ROWS && Holds(rows, bytes) && !Misaligned(op) && op.load
    ensures InMemory(bytes)
    ensures ExecOut(bytes, op, false) == Value(Extract(EntryOf(Decode(Some(op))), rows[Row(Addr(op))]))
  {
    hide Row, LoadLE, Holds, SignExtend, Assemble, Aligned;
    var a := Addr(op);
    Lengths(rows, bytes);
    assert Aligned(a % 4, op.width) by { InRow(a, op.width); }
    LaneLoadIsByteLoad(rows, bytes, Row(a), a % 4, op.width, op.signed);
    ExtractIsLanes(op, rows[Row(a)]);
  }

  lemma ExtractIsLanes(op: Op, l: Lanes)
    requires op.load
    ensures Extract(EntryOf(Decode(Some(op))), l) == LoadLanes(l, op.width, Addr(op) % 4, op.signed)
  {
    hide SignExtend, Assemble, Aligned;
    assert SignExtend(WordOf(l), Full) == WordOf(l) by { FullKeeps(WordOf(l)); }
  }

  lemma FullKeeps(x: Word)
    ensures SignExtend(x, Full) == x
  {
  }

  // ---------------------------------------------------------------- control invariant

  predicate Control(s: State, e: Env) {
    && (s.pending <==> e.open.Some?)
    && !(s.pending && s.unalignedE2)
    && |s.fifo| == (if s.pending || s.unalignedE2 then 1 else 0)
    && !(s.req.unaligned && (s.req.rd || Any(s.req.strobes)))
    && (s.unalignedE2 ==> !Busy(s.req))
  }

  lemma DecodeShape(op: Option<Op>)
    ensures var r := Decode(op); !(r.unaligned && (r.rd || Any(r.strobes)))
    ensures op.Some? ==> Busy(Decode(op))
    ensures op.Some? ==> (Decode(op).unaligned <==> Misaligned(op.value))
    ensures op.None? ==> !Busy(Decode(op))
  {
    hide StoreLanes, Addr;
  }

  lemma ControlStep(s: State, e: Env, i: In, fault: bool)
    requires Control(s, e) && Legal(s, e, i) && |e.rows| >= ROWS
    ensures Control(Next(s, i), NextEnv(s, e, i, fault))
  {
    hide Write, Row, Decode;
    DecodeShape(i.op);
  }

  // ---------------------------------------------------------------- history

  /** The operations taken: first those answered, then the one in memory or found misaligned,
      then the one in the request registers. */
  ghost predicate Lined(s: State, h: Hist) {
    && |h.faults| == |h.outs| + (if s.pending || s.unalignedE2 then 1 else 0)
    && |h.ops| == |h.faults| + (if Busy(s.req) then 1 else 0)
    && (Busy(s.req) ==> s.req == Decode(Some(h.ops[|h.faults|])))
    && (s.pending || s.unalignedE2 ==>
          |s.fifo| == 1 && s.fifo[0] == EntryOf(Decode(Some(h.ops[|h.outs|]))))
    && (s.pending ==> !Misaligned(h.ops[|h.outs|]))
    && (s.unalignedE2 ==> Misaligned(h.ops[|h.outs|]))
  }

  lemma LinedStep(s: State, e: Env, h: Hist, i: In, fault: bool)
    requires Control(s, e) && Legal(s, e, i) && Lined(s, h)
    ensures Lined(Next(s, i), Observe(h, s, i, fault))
    ensures var h2 := Observe(h, s, i, fault);
            && |h.faults| <= |h2.faults| && h.faults == h2.faults[..|h.faults|]
            && |h2.ops| >= |h2.faults| && h2.ops[..|h2.faults|] == h.ops[..|h2.faults|]
  {
    hide Decode, Misaligned, Extract, EntryOf;
    DecodeShape(i.op);
    if Busy(s.req) {
      DecodeShape(Some(h.ops[|h.faults|]));
    }
  }

  ghost predicate Meaning(bytes: seq<Byte>, s: State, e: Env, h: Hist) {
    && InMemory(bytes)
    && |e.rows| >= ROWS
    && |h.outs| <= |h.faults| <= |h.ops|
    && Holds(e.rows, RunMem(bytes, h.ops, h.faults, |h.faults|))
    && (forall n :: 0 <= n < |h.outs| ==> h.outs[n] == RunOut(bytes, h.ops, h.faults, n))
    && (s.pending && e.open.Some? ==>
          && |h.outs| < |h.faults|
          && e.open.value.fault == h.faults[|h.outs|]
          && (!e.open.value.fault ==>
                RunOut(bytes, h.ops, h.faults, |h.outs|) == Answer(h.ops[|h.outs|], e.open.value.word)))
  }

  function Answer(op: Op, word: Lanes): Outcome {
    if op.load then Value(Extract(EntryOf(Decode(Some(op))), word)) else Stored
  }

  lemma {:induction false} RunMemPrefix(
      bytes: seq<Byte>, ops: seq<Op>, faults: seq<bool>, ops2: seq<Op>, faults2: seq<bool>, n: nat)
    requires InMemory(bytes) && n <= |ops| && n <= |faults| && n <= |ops2| && n <= |faults2|
    requires ops[..n] == ops2[..n] && faults[..n] == faults2[..n]
    ensures RunMem(bytes, ops, faults, n) == RunMem(bytes, ops2, faults2, n)
  {
    if n > 0 {
      hide ExecMem;
      assert ops[..n][n - 1] == ops2[..n][n - 1] && faults[..n][n - 1] == faults2[..n][n - 1];
      assert ops[..n][..n - 1] == ops[..n - 1] && ops2[..n][..n - 1] == ops2[..n - 1];
      assert faults[..n][..n - 1] == faults[..n - 1] && faults2[..n][..n - 1] == faults2[..n - 1];
      RunMemPrefix(bytes, ops, faults, ops2, faults2, n - 1);
    }
  }

  lemma RunOutPrefix(bytes: seq<Byte>, h: Hist, h2: Hist, n: nat)
    requires InMemory(bytes) && n < |h.faults| <= |h.ops| && |h.faults| <= |h2.faults| <= |h2.ops|
    requires h.faults == h2.faults[..|h.faults|] && h2.ops[..|h.faults|] == h.ops[..|h.faults|]
    ensures RunOut(bytes, h2.ops, h2.faults, n) == RunOut(bytes, h.ops, h.faults, n)
  {
    hide ExecOut;
    assert h.faults[..n] == h2.faults[..n] && h.faults[n] == h2.faults[n];
    assert h2.ops[..|h.faults|][..n] == h2.ops[..n] && h.ops[..|h.faults|][..n] == h.ops[..n];
    assert h2.ops[..|h.faults|][n] == h2.ops[n] && h.ops[..|h.faults|][n] == h.ops[n];
    RunMemPrefix(bytes, h.ops, h.faults, h2.ops, h2.faults, n);
  }

  /** The operations that have left the registers, before and after a clock. */
  lemma LeftBefore(s: State, e: Env, h: Hist, i: In, fault: bool)
    requires Control(s, e) && Legal(s, e, i) && Lined(s, h)
    ensures var (h2, n) := (Observe(h, s, i, fault), |h.faults|);
            && n <= |h2.faults| <= |h2.ops| && n <= |h.ops|
            && h2.ops[..n] == h.ops[..n] && h2.faults[..n] == h.faults
            && (Push(s, i) ==> |h2.faults| == n + 1 && h2.faults[n] == (Fires(s, i) && fault)
                               && n < |h.ops| && h2.ops[n] == h.ops[n] && s.req == Decode(Some(h.ops[n])))
            && (!Push(s, i) ==> |h2.faults| == n)
  {
    hide Decode, Misaligned, Extract, EntryOf, Captures, Squash, Respond;
    LinedStep(s, e, h, i, fault);
    var (h2, n) := (Observe(h, s, i, fault), |h.faults|);
    assert h2.ops[..n] == h.ops[..n] by { assert h2.ops[..|h2.faults|][..n] == h.ops[..|h2.faults|][..n]; }
    if Push(s, i) {
      assert h2.ops[n] == h.ops[n] by { assert h2.ops[..|h2.faults|][n] == h.ops[..|h2.faults|][n]; }
    }
  }

  /** Memory after this clock holds what the operations that have left the registers made of it. */
  lemma MemoryStep(bytes: seq<Byte>, s: State, e: Env, h: Hist, i: In, fault: bool)
    requires Control(s, e) && Lined(s, h) && Legal(s, e, i) && Meaning(bytes, s, e, h)
    ensures var h2 := Observe(h, s, i, fault);
            && |h2.faults| <= |h2.ops|
            && |NextEnv(s, e, i, fault).rows| >= ROWS
            && Holds(NextEnv(s, e, i, fault).rows, RunMem(bytes, h2.ops, h2.faults, |h2.faults|))
  {
    hide Holds, Write, Row, Decode, ExecMem, Observe, Control, Lined, Legal, RunOut, Answer, Requests, Delay;
    LeftBefore(s, e, h, i, fault);
    var (h2, n) := (Observe(h, s, i, fault), |h.faults|);
    assert h.faults[..n] == h.faults;
    RunMemPrefix(bytes, h.ops, h.faults, h2.ops, h2.faults, n);
    if Push(s, i) {
      PushIsExec(e.rows, RunMem(bytes, h.ops, h.faults, n), s, i, h.ops[n], fault);
    }
  }

  lemma PushIsExec(rows: seq<Lanes>, bytes: seq<Byte>, s: State, i: In, op: Op, fault: bool)
    requires |rows| >= ROWS && InMemory(bytes) && Holds(rows, bytes)
    requires s.req == Decode(Some(op)) && Push(s, i)
    ensures Holds(if Fires(s, i) && !fault then Write(rows, s.req.addr - s.req.addr % 4, s.req.data, WrOut(s, i)) else rows,
                  ExecMem(bytes, op, Fires(s, i) && fault))
  {
    hide Holds, Write, Row, Decode, StoreLE;
    DecodeShape(Some(op));
    if !Misaligned(op) {
      AccessIsExec(rows, bytes, op, fault);
    }
  }

  /** The response this clock is the reference's result for the oldest operation in flight. */
  lemma RespondsRight(bytes: seq<Byte>, s: State, e: Env, h: Hist, i: In)
    requires Control(s, e) && Lined(s, h) && Legal(s, e, i) && Meaning(bytes, s, e, h)
    ensures (Respond(s, i).Some? <==> Pop(s, i))
    ensures Pop(s, i) ==> |h.outs| < |h.faults| && Respond(s, i).value == RunOut(bytes, h.ops, h.faults, |h.outs|)
  {
    hide Extract, Holds, RunMem, StoreLE, LoadLE, Misaligned;
    if Pop(s, i) {
      assert s.pending || s.unalignedE2;
      EntryKeeps(h.ops[|h.outs|]);
    }
  }

  lemma EntryKeeps(op: Op)
    ensures EntryOf(Decode(Some(op))).load == op.load && EntryOf(Decode(Some(op))).addr == Addr(op)
  {
  }

  /** An access taken now will be answered from the word it reads now. */
  lemma OpensRight(bytes: seq<Byte>, s: State, e: Env, h: Hist, i: In, fault: bool)
    requires Control(s, e) && Lined(s, h) && Legal(s, e, i) && Meaning(bytes, s, e, h)
    requires Fires(s, i)
    ensures var h2 := Observe(h, s, i, fault);
            && |h2.outs| == |h.faults| && |h2.faults| == |h.faults| + 1 <= |h2.ops| && h2.faults[|h.faults|] == fault
            && (!fault ==> RunOut(bytes, h2.ops, h2.faults, |h.faults|)
                           == Answer(h2.ops[|h.faults|], e.rows[Row(s.req.addr - s.req.addr % 4)]))
  {
    hide Holds, Write, Row, Decode, Misaligned, Extract, Captures, Squash, RunMem, ExecOut;
    var h2 := Observe(h, s, i, fault);
    var n := |h.faults|;
    RespondsRight(bytes, s, e, h, i);
    LinedStep(s, e, h, i, fault);
    assert h2.ops[..n] == h.ops[..n] by { assert h2.ops[..|h2.faults|][..n] == h.ops[..|h2.faults|][..n]; }
    RunMemPrefix(bytes, h.ops, h.faults, h2.ops, h2.faults, n);
    var op := h.ops[n];
    assert h2.ops[n] == op by { assert h2.ops[..|h2.faults|][n] == h.ops[..|h2.faults|][n]; }
    DecodeShape(Some(op));
    if !fault {
      AnswersRead(e.rows, RunMem(bytes, h.ops, h.faults, n), op);
    }
  }

  lemma AnswersRead(rows: seq<Lanes>, bytes: seq<Byte>, op: Op)
    requires |rows| >= ROWS && InMemory(bytes) && Holds(rows, bytes) && !Misaligned(op)
    ensures var a := Decode(Some(op)).addr;
            ExecOut(bytes, op, false) == Answer(op, rows[Row(a - a % 4)])
  {
    hide Holds, Row, Extract, LoadLE;
    EntryKeeps(op);
    RowOfAligned(Addr(op));
    if op.load {
      ExtractIsLoad(rows, bytes, op);
    }
  }

  lemma MeaningStep(bytes: seq<Byte>, s: State, e: Env, h: Hist, i: In, fault: bool)
    requires Control(s, e) && Lined(s, h) && Legal(s, e, i) && Meaning(bytes, s, e, h)
    ensures Meaning(bytes, Next(s, i), NextEnv(s, e, i, fault), Observe(h, s, i, fault))
  {
    hide Holds, Write, Row, Decode, Misaligned, Extract, Captures, Squash, RunMem, RunOut, Answer, Respond;
    var h2 := Observe(h, s, i, fault);
    LinedStep(s, e, h, i, fault);
    MemoryStep(bytes, s, e, h, i, fault);
    RespondsRight(bytes, s, e, h, i);
    assert h2.ops[..|h.faults|] == h.ops[..|h.faults|] by {
      assert h2.ops[..|h2.faults|][..|h.faults|] == h.ops[..|h2.faults|][..|h.faults|];
    }
    forall n | 0 <= n < |h2.outs|
      ensures h2.outs[n] == RunOut(bytes, h2.ops, h2.faults, n)
    {
      RunOutPrefix(bytes, h, h2, n);
    }
    if Fires(s, i) {
      OpensRight(bytes, s, e, h, i, fault);
    } else if Next(s, i).pending {
      RunOutPrefix(bytes, h, h2, |h.outs|);
    }
  }

  // ---------------------------------------------------------------- main results

  lemma {:induction false} Always(rows: seq<Lanes>, bytes: seq<Byte>, ins: seq<Input>)
    requires |rows| >= ROWS && Holds(rows, bytes) && After(rows, ins).Some?
    ensures var System(s, e, h) := After(rows, ins).value;
            Control(s, e) && Lined(s, h) && Meaning(bytes, s, e, h)
  {
    if ins == [] {
      assert |bytes| == 4 * |rows|;
    } else {
      hide Control, Lined, Meaning, Holds, Next, NextEnv, Observe, Legal;
      var n := |ins| - 1;
      Always(rows, bytes, ins[..n]);
      var System(s, e, h) := After(rows, ins[..n]).value;
      ControlStep(s, e, ins[n].i, ins[n].fault);
      LinedStep(s, e, h, ins[n].i, ins[n].fault);
      MeaningStep(bytes, s, e, h, ins[n].i, ins[n].fault);
    }
  }

  /** For any memory delays, faults and misaligned addresses: the results so far are those of the
      operations run one after another on the byte memory, and the RAM rows hold that memory. */
  lemma MatchesByteMemory(rows: seq<Lanes>, bytes: seq<Byte>, ins: seq<Input>)
    requires |rows| >= ROWS && Holds(rows, bytes) && After(rows, ins).Some?
    ensures InMemory(bytes)
    ensures var System(s, e, h) := After(rows, ins).value;
            && |h.outs| <= |h.faults| <= |h.ops|
            && Holds(e.rows, RunMem(bytes, h.ops, h.faults, |h.faults|))
            && forall n :: 0 <= n < |h.outs| ==> h.outs[n] == RunOut(bytes, h.ops, h.faults, n)
  {
    Always(rows, bytes, ins);
  }

  /** When a response comes, the head of the FIFO describes the operation it answers, and the FIFO
      holds nothing else. */
  lemma HeadDescribesTheAccess(rows: seq<Lanes>, bytes: seq<Byte>, ins: seq<Input>, i: In)
    requires |rows| >= ROWS && Holds(rows, bytes) && After(rows, ins).Some?
    requires Legal(After(rows, ins).value.s, After(rows, ins).value.e, i)
    requires Pop(After(rows, ins).value.s, i)
    ensures var System(s, _, h) := After(rows, ins).value;
            && |h.outs| < |h.ops|
            && s.fifo == [EntryOf(Decode(Some(h.ops[|h.outs|])))]
  {
    Always(rows, bytes, ins);
  }

  /** A failed or misaligned access takes the next operation with it: that operation is not
      presented to memory in the clock of the fault, and is gone after it. */
  lemma FaultSquashesTheNext(rows: seq<Lanes>, bytes: seq<Byte>, ins: seq<Input>, i: In)
    requires |rows| >= ROWS && Holds(rows, bytes) && After(rows, ins).Some?
    requires Legal(After(rows, ins).value.s, After(rows, ins).value.e, i)
    requires Squash(After(rows, ins).value.s, i)
    ensures var s := After(rows, ins).value.s;
            !Requests(s, i) && !Busy(Next(s, i).req) && !Next(s, i).pending && Next(s, i).fifo == []
  {
    Always(rows, bytes, ins);
  }
}
