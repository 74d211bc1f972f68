/**
 The store-and-forward frame gate: registers, frame RAM and one clock edge. `Edge` is the whole
 always block; every right-hand side reads the registers as they were before the edge.
 */
module FrameGate {
  import opened Modular

  /** One byte on either stream, with its sidebands. */
  datatype Beat = Beat(data: nat, last: bool, error: bool, sof: bool)

  /** What the outside drives into one clock edge. */
  datatype Inputs = Inputs(valid: bool, beat: Beat, ready: bool)

  /** 2^ADDR_WIDTH and SLOT_COUNT. */
  datatype Config = Config(depth: nat, slots: nat) {
    predicate Legal() {
      0 < depth && 0 < slots
    }

    /** Every slot has a number that the slot registers, four bits wide at most, can hold. */
    predicate Addressed() {
      slots <= 16
    }

    /** 2^SLOT_BITS. */
    function SlotRange(): nat {
      if slots <= 2 then 2 else if slots <= 4 then 4 else if slots <= 8 then 8 else 16
    }
  }

  /** The registers of the input side. */
  datatype Fill = Fill(drop: bool, slot: nat, wrPtr: nat, bad: bool,
                       good: nat, dropped: nat, overflow: nat)

  /** The drain statistics. */
  datatype Stats = Stats(samples: nat, total: nat, max: nat,
                         lt50: nat, lt100: nat, lt200: nat, lt500: nat, ge500: nat,
                         low: nat, lowMax: nat, lowSamples: nat)

  /** The registers of the output side. */
  datatype Drain = Drain(active: bool, slot: nat, rdCount: nat, len: nat, pending: bool, ramOut: Beat,
                         valid: bool, out: Beat, cycles: nat, low: nat, stats: Stats)

  datatype Gate = Gate(cfg: Config, fill: Fill, drain: Drain, fullCount: nat,
                       slotLen: seq<nat>, mem: seq<seq<Beat>>)

  // ---- Wires ----

  predicate Ready(g: Gate) {
    g.fill.drop || g.fullCount < g.cfg.slots
  }

  predicate InputAccept(g: Gate, i: Inputs) {
    i.valid && Ready(g)
  }

  predicate OutputAccept(g: Gate, i: Inputs) {
    g.drain.valid && i.ready
  }

  predicate FinishDrain(g: Gate, i: Inputs) {
    OutputAccept(g, i) && g.drain.out.last
  }

  predicate WriteOverflow(g: Gate, i: Inputs) {
    InputAccept(g, i) && g.fill.wrPtr == g.cfg.depth - 1 && !i.beat.last
  }

  predicate RamWrite(g: Gate, i: Inputs) {
    InputAccept(g, i) && !g.fill.drop
  }

  /** The frame in the fill slot is complete and good. */
  predicate Commit(g: Gate, i: Inputs) {
    RamWrite(g, i) && !WriteOverflow(g, i) && i.beat.last && !g.fill.bad && !i.beat.error
  }

  predicate RamRead(g: Gate, i: Inputs) {
    g.drain.active && !FinishDrain(g, i) && (!g.drain.valid || i.ready) && !g.drain.pending
    && g.drain.rdCount < g.drain.len
  }

  predicate Stalled(g: Gate, i: Inputs) {
    g.drain.active && g.drain.valid && !i.ready
  }

  // ---- The clock edge ----

  function NextSlot(slot: nat, cfg: Config): nat {
    if slot == cfg.slots - 1 then 0 else (slot + 1) % cfg.SlotRange()
  }

  function FillEdge(g: Gate, i: Inputs): Fill
    requires 0 < g.cfg.depth
  {
    var f := g.fill;
    if f.drop then
      if InputAccept(g, i) && i.beat.last then f.(drop := false, wrPtr := 0, bad := false) else f
    else if !InputAccept(g, i) then f
    else if WriteOverflow(g, i) then
      f.(drop := true, bad := true, overflow := Count(f.overflow, 1))
    else if i.beat.last then
      var f' := f.(wrPtr := 0, bad := false);
      if f.bad || i.beat.error then f'.(dropped := Count(f.dropped, 1))
      else f'.(slot := NextSlot(f.slot, g.cfg), good := Count(f.good, 1))
    else f.(wrPtr := (f.wrPtr + 1) % g.cfg.depth, bad := f.bad || i.beat.error)
  }

  /** The statistics of a frame whose last beat is accepted at this edge. */
  function Sample(d: Drain): Stats {
    var c := Count(d.cycles, 1);
    var s := d.stats;
    var s' := s.(samples := Count(s.samples, 1),
                 total := Count(s.total, d.cycles + 1),
                 max := if c > s.max then c else s.max,
                 lowMax := if d.low > s.lowMax then d.low else s.lowMax);
    if c < 5000 then s'.(lt50 := Count(s.lt50, 1))
    else if c < 10000 then s'.(lt100 := Count(s.lt100, 1))
    else if c < 20000 then s'.(lt200 := Count(s.lt200, 1))
    else if c < 50000 then s'.(lt500 := Count(s.lt500, 1))
    else s'.(ge500 := Count(s.ge500, 1))
  }

  /** The counters that run while a frame drains. */
  function Running(g: Gate, i: Inputs): Drain {
    var d := g.drain;
    if !d.active then d
    else if Stalled(g, i) then
      d.(cycles := Count(d.cycles, 1), low := Count(d.low, 1),
         stats := d.stats.(low := Count(d.stats.low, 1), lowSamples := Count(d.stats.lowSamples, 1)))
    else d.(cycles := Count(d.cycles, 1))
  }

  function DrainEdge(g: Gate, i: Inputs): Drain
    requires 0 < g.cfg.depth && g.drain.slot < |g.slotLen| && g.drain.slot < |g.mem|
    requires |g.mem[g.drain.slot]| == g.cfg.depth
  {
    var d := g.drain;
    if !d.active && g.fullCount != 0 then
      d.(active := true, len := g.slotLen[d.slot], rdCount := 0, cycles := 0, low := 0, pending := false,
         valid := false, out := d.out.(last := false, sof := false))
    else if !d.active then
      d.(valid := false, out := d.out.(last := false, sof := false))
    else if FinishDrain(g, i) then
      Running(g, i).(valid := false, out := d.out.(last := false, sof := false), active := false,
                     pending := false, slot := NextSlot(d.slot, g.cfg), stats := Sample(d))
    else
      Running(g, i).(valid := if d.pending then true else d.valid && !i.ready,
                     out := if d.pending then d.ramOut else d.out,
                     pending := RamRead(g, i),
                     ramOut := if RamRead(g, i) then g.mem[d.slot][d.rdCount % g.cfg.depth] else d.ramOut,
                     rdCount := if RamRead(g, i) then (d.rdCount + 1) % (2 * g.cfg.depth) else d.rdCount)
  }

  /** The registers and memories have their sizes. */
  predicate Shape(g: Gate) {
    && g.cfg.Legal()
    && |g.slotLen| == |g.mem| == g.cfg.slots
    && g.fill.slot < g.cfg.slots && g.drain.slot < g.cfg.slots && g.fill.wrPtr < g.cfg.depth
    && forall k :: 0 <= k < g.cfg.slots ==> |g.mem[k]| == g.cfg.depth
  }

  /** full_count after the increment and decrement flags of this edge. */
  function CountEdge(g: Gate, i: Inputs): nat {
    var inc := Commit(g, i);
    var dec := g.drain.active && FinishDrain(g, i);
    if inc == dec then g.fullCount
    else if inc then (g.fullCount + 1) % (2 * g.cfg.SlotRange())
    else if g.fullCount > 0 then g.fullCount - 1 else 2 * g.cfg.SlotRange() - 1
  }

  function LenEdge(g: Gate, i: Inputs): seq<nat>
    requires g.fill.slot < |g.slotLen|
  {
    if Commit(g, i) then g.slotLen[g.fill.slot := g.fill.wrPtr + 1] else g.slotLen
  }

  function MemEdge(g: Gate, i: Inputs): seq<seq<Beat>>
    requires g.fill.slot < |g.mem| && g.fill.wrPtr < |g.mem[g.fill.slot]|
  {
    if RamWrite(g, i) then g.mem[g.fill.slot := g.mem[g.fill.slot][g.fill.wrPtr := i.beat]] else g.mem
  }

  function Edge(g: Gate, i: Inputs): Gate
    requires Shape(g)
  {
    Gate(g.cfg, FillEdge(g, i), DrainEdge(g, i), CountEdge(g, i), LenEdge(g, i), MemEdge(g, i))
  }

  /** After reset; the RAM and its output register hold anything. */
  predicate Initial(g: Gate) {
    && Shape(g)
    && g.fill == Fill(false, 0, 0, false, 0, 0, 0)
    && g.drain == Drain(false, 0, 0, 0, false, g.drain.ramOut, false, Beat(0, false, false, false), 0, 0,
                        Stats(0, 0, 0, 0, 0, 0, 0, 0, 0, 0, 0))
    && g.fullCount == 0
    && g.slotLen == seq(g.cfg.slots, k => 0)
  }
}
