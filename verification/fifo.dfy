/** The small FIFOs of the load/store unit, the data port bridge and the TCM port: a ring buffer
    of registers with read and write pointers and a count. */
module Fifo {
  /** A clock edge on the queue the FIFO stands for. Push and pop are judged on the same old
      count: a push into a full FIFO and a pop from an empty one are ignored. */
  function FifoNext<T>(q: seq<T>, depth: nat, push: bool, data: T, pop: bool): seq<T> {
    var rest := if pop && q != [] then q[1..] else q;
    if push && |q| != depth then rest + [data] else rest
  }

  /** Nothing is lost or reordered: what has been pushed is what has been popped plus the queue. */
  lemma {:induction false} FifoConserves<T>(
      q: seq<T>, depth: nat, push: bool, data: T, pop: bool, pushed: seq<T>, popped: seq<T>)
    requires pushed == popped + q
    requires push ==> |q| != depth
    requires pop ==> q != []
    ensures (if push then pushed + [data] else pushed)
            == (if pop then popped + [q[0]] else popped) + FifoNext(q, depth, push, data, pop)
  {
    if pop {
      assert popped + q == (popped + [q[0]]) + q[1..];
    }
  }

  class RingFifo<T> {
    const depth: nat
    const ram: array<T>
    var rdPtr: nat
    var wrPtr: nat
    var count: nat

    ghost predicate Valid()
      reads this, ram
    {
      && ram.Length == depth > 0
      && rdPtr < depth && wrPtr < depth && count <= depth
      && wrPtr == (if rdPtr + count < depth then rdPtr + count else rdPtr + count - depth)
    }

    /** The elements from the read pointer on, oldest first. */
    ghost function Contents(): (q: seq<T>)
      reads this, ram
      requires Valid()
      ensures |q| == count
    {
      if rdPtr + count <= depth then ram[rdPtr..rdPtr + count]
      else ram[rdPtr..] + ram[..rdPtr + count - depth]
    }

    constructor (depth: nat, fill: T)
      requires depth > 0
      ensures Valid() && Contents() == [] && this.depth == depth && fresh(ram)
    {
      this.depth := depth;
      ram := new T[depth](_ => fill);
      rdPtr, wrPtr, count := 0, 0, 0;
    }

    function Accept(): (r: bool)
      reads this
    { count != depth }

    function HasData(): (r: bool)
      reads this
    { count != 0 }

    method Head() returns (x: T)
      requires Valid() && Contents() != []
      ensures x == Contents()[0]
    {
      x := ram[rdPtr];
    }

    /** One clock edge. */
    method Step(push: bool, data: T, pop: bool)
      requires Valid()
      modifies this, ram
      ensures Valid()
      ensures Contents() == FifoNext(old(Contents()), depth, push, data, pop)
    {
      var pushing, popping := push && count != depth, pop && count != 0;
      if popping {
        Advance();
      }
      if pushing {
        Write(data);
      }
    }

    method Write(data: T)
      requires Valid() && count < depth
      modifies this, ram
      ensures Valid() && Contents() == old(Contents()) + [data]
    {
      ram[wrPtr] := data;
      wrPtr := if wrPtr + 1 == depth then 0 else wrPtr + 1;
      count := count + 1;
    }

    method Advance()
      requires Valid() && count > 0
      modifies this
      ensures Valid() && count == old(count) - 1 && Contents() == old(Contents())[1..]
    {
      rdPtr := if rdPtr + 1 == depth then 0 else rdPtr + 1;
      count := count - 1;
    }
  }
}
