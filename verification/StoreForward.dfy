/**
 The store-and-forward buffer in front of the transmit MAC: a byte FIFO and a count of the complete
 frames in it. `Edge` is one clock edge; `Buffer` is the same edge on registers and memory in place.
 */
module StoreForward {
  import opened Modular

  /** One FIFO entry. */
  datatype Entry = Entry(last: bool, data: bv8)

  /** What the outside drives into one clock edge. */
  datatype Inputs = Inputs(valid: bool, entry: Entry, ready: bool)

  /** The registers; depth is 2^DATA_FIFO_ADDR_WIDTH and max is 2^FRAME_COUNT_WIDTH - 1. */
  datatype State = State(depth: nat, max: nat, wrPtr: nat, rdPtr: nat, mem: seq<Entry>, pending: nat,
                         committed: nat, drained: nat)

  predicate Shape(s: State) {
    0 < s.depth == |s.mem| && 0 < s.max && s.wrPtr < 2 * s.depth && s.rdPtr < 2 * s.depth
  }

  // ---- Wires ----

  /** The pointer difference, in registers one bit wider than the address. */
  function FillLevel(s: State): nat
    requires Shape(s)
  {
    (s.wrPtr + 2 * s.depth - s.rdPtr) % (2 * s.depth)
  }

  predicate Ready(s: State)
    requires Shape(s)
  {
    FillLevel(s) != s.depth && s.pending != s.max
  }

  predicate Offers(s: State)
    requires Shape(s)
  {
    s.pending != 0 && FillLevel(s) != 0
  }

  function Dout(s: State): Entry
    requires Shape(s)
  {
    s.mem[s.rdPtr % s.depth]
  }

  predicate Write(s: State, i: Inputs)
    requires Shape(s)
  {
    i.valid && Ready(s)
  }

  predicate Read(s: State, i: Inputs)
    requires Shape(s)
  {
    Offers(s) && i.ready
  }

  // ---- The clock edge ----

  function Edge(s: State, i: Inputs): State
    requires Shape(s)
  {
    var commit := Write(s, i) && i.entry.last;
    var retire := Read(s, i) && Dout(s).last;
    s.(wrPtr := if Write(s, i) then (s.wrPtr + 1) % (2 * s.depth) else s.wrPtr,
       rdPtr := if Read(s, i) then (s.rdPtr + 1) % (2 * s.depth) else s.rdPtr,
       mem := if Write(s, i) then s.mem[s.wrPtr % s.depth := i.entry] else s.mem,
       pending := if commit && !retire && s.pending != s.max then s.pending + 1
                  else if retire && !commit && s.pending != 0 then s.pending - 1
                  else s.pending,
       committed := if commit then Count(s.committed, 1) else s.committed,
       drained := if retire then Count(s.drained, 1) else s.drained)
  }

  predicate Initial(s: State) {
    Shape(s) && s.wrPtr == s.rdPtr == s.pending == s.committed == s.drained == 0
  }

  // ---- In place ----

  class Buffer {
    const depth: nat
    const max: nat
    const mem: array<Entry>
    var wrPtr: nat
    var rdPtr: nat
    var pending: nat
    var committed: nat
    var drained: nat

    ghost function Contents(): State
      reads this, mem
    {
      State(depth, max, wrPtr, rdPtr, mem[..], pending, committed, drained)
    }

    ghost predicate Valid()
      reads this, mem
    {
      Shape(Contents())
    }

    constructor (depth: nat, max: nat, fill: Entry)
      requires 0 < depth && 0 < max
      ensures Valid() && Initial(Contents()) && this.depth == depth && this.max == max && fresh(mem)
    {
      this.depth, this.max := depth, max;
      wrPtr, rdPtr, pending, committed, drained := 0, 0, 0, 0, 0;
      mem := new Entry[depth](_ => fill);
    }

    method Clock(i: Inputs)
      requires Valid()
      modifies this, mem
      ensures Valid() && Contents() == Edge(old(Contents()), i)
    {
      var level := (wrPtr + 2 * depth - rdPtr) % (2 * depth);
      var full, available := pending == max, pending != 0;
      var write := i.valid && level != depth && !full;
      var read := available && level != 0 && i.ready;
      var commit := write && i.entry.last;
      var retire := read && mem[rdPtr % depth].last;
      if commit && !retire && !full {
        pending := pending + 1;
      } else if retire && !commit && available {
        pending := pending - 1;
      }
      if commit {
        committed := Count(committed, 1);
      }
      if retire {
        drained := Count(drained, 1);
      }
      if write {
        mem[wrPtr % depth] := i.entry;
        wrPtr := (wrPtr + 1) % (2 * depth);
      }
      if read {
        rdPtr := (rdPtr + 1) % (2 * depth);
      }
    }
  }
}
