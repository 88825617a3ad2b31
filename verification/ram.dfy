/** The synchronous RAM of the tightly coupled memory: words of four byte lanes, written under
    byte strobes, whose read port returns the word as it was before the write of the same clock. */
module Ram {
  import opened Words

  datatype Lanes = Lanes(b0: Byte, b1: Byte, b2: Byte, b3: Byte)
  datatype Strobes = Strobes(s0: bool, s1: bool, s2: bool, s3: bool)

  const ZERO := Lanes(0, 0, 0, 0)
  const NO_STROBE := Strobes(false, false, false, false)
  const ROWS := 0x40_0000

  predicate Any(s: Strobes) { s.s0 || s.s1 || s.s2 || s.s3 }

  function Merge(was: Lanes, data: Lanes, s: Strobes): Lanes {
    Lanes(if s.s0 then data.b0 else was.b0, if s.s1 then data.b1 else was.b1,
          if s.s2 then data.b2 else was.b2, if s.s3 then data.b3 else was.b3)
  }

  /** Address bits 23 to 2 select the row. */
  function Row(addr: Word): (r: nat)
    ensures r < ROWS
  {
    addr / 4 % ROWS
  }

  function Write(rows: seq<Lanes>, addr: Word, data: Lanes, s: Strobes): (r: seq<Lanes>)
    requires |rows| >= ROWS
    ensures |r| == |rows|
  {
    rows[Row(addr) := Merge(rows[Row(addr)], data, s)]
  }

  /** One port access: what was asked for, and the word the read register took. */
  datatype Access = Access(addr: Word, data: Lanes, strobes: Strobes, seen: Lanes)

  function Replay(rows: seq<Lanes>, log: seq<Access>): (r: seq<Lanes>)
    requires |rows| >= ROWS
    ensures |r| == |rows|
  {
    if log == [] then rows
    else
      var a := log[|log| - 1];
      Write(Replay(rows, log[..|log| - 1]), a.addr, a.data, a.strobes)
  }

  /** Every access of the log saw the memory that the accesses before it left. */
  ghost predicate Sequential(rows: seq<Lanes>, log: seq<Access>)
    requires |rows| >= ROWS
  {
    forall k :: 0 <= k < |log| ==> log[k].seen == Replay(rows, log[..k])[Row(log[k].addr)]
  }

  lemma SequentialSnoc(rows: seq<Lanes>, log: seq<Access>, a: Access)
    requires |rows| >= ROWS
    requires Sequential(rows, log)
    requires a.seen == Replay(rows, log)[Row(a.addr)]
    ensures Sequential(rows, log + [a])
    ensures Replay(rows, log + [a]) == Write(Replay(rows, log), a.addr, a.data, a.strobes)
  {
    var longer := log + [a];
    assert longer[..|log|] == log;
    forall k | 0 <= k < |longer|
      ensures longer[k].seen == Replay(rows, longer[..k])[Row(longer[k].addr)]
    {
      if k < |log| {
        assert longer[..k] == log[..k];
      }
    }
  }

  class SyncRam {
    const cells: array<Lanes>
    var readQ: Lanes

    ghost predicate Valid()
      reads this
    { cells.Length >= ROWS }

    constructor (size: nat)
      requires size >= ROWS
      ensures Valid() && fresh(cells) && readQ == ZERO
      ensures cells.Length == size && forall k :: 0 <= k < size ==> cells[k] == ZERO
    {
      cells := new Lanes[size](_ => ZERO);
      readQ := ZERO;
    }

    /** A clock edge of one port. */
    method Clock(addr: Word, data: Lanes, strobes: Strobes)
      requires Valid()
      modifies this, cells
      ensures Valid()
      ensures readQ == old(cells[Row(addr)])
      ensures cells[..] == Write(old(cells[..]), addr, data, strobes)
    {
      var row := Row(addr);
      var was := cells[row];
      readQ := was;
      var word := was;
      if strobes.s0 { word := word.(b0 := data.b0); }
      if strobes.s1 { word := word.(b1 := data.b1); }
      if strobes.s2 { word := word.(b2 := data.b2); }
      if strobes.s3 { word := word.(b3 := data.b3); }
      cells[row] := word;
    }
  }
}
