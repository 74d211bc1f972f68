/** What one clock edge of the frame gate does to the frame coming in, the stored ones and the one going out. */
module FrameGateProofs {
  import opened Modular
  import opened FrameGate
  import opened Frames

  // ---- The input side ----

  predicate FillOk(f: Fill, row: seq<Beat>, part: seq<Beat>) {
    if f.drop then |part| >= |row|
    else |part| == f.wrPtr < |row| && f.bad == HasError(part) && row[..f.wrPtr] == part
  }

  // ---- The slots in use ----

  predicate SlotHolds(len: nat, row: seq<Beat>, f: seq<Beat>) {
    1 <= |f| == len <= |row| && row[..|f|] == f
  }

  predicate Stored(slots: nat, slot: nat, slotLen: seq<nat>, mem: seq<seq<Beat>>, queue: seq<seq<Beat>>) {
    && |queue| <= slots == |slotLen| == |mem|
    && slot < slots
    && forall k :: 0 <= k < |queue| ==>
         var s := Add(slot, k, slots); SlotHolds(slotLen[s], mem[s], queue[k])
  }

  predicate CountOk(cfg: Config, fillSlot: nat, drainSlot: nat, fullCount: nat) {
    cfg.Legal() && cfg.Addressed() && drainSlot < cfg.slots && fullCount <= cfg.slots
    && fillSlot == Add(drainSlot, fullCount, cfg.slots)
  }

  // ---- The output side ----

  function Bit(b: bool): nat {
    if b then 1 else 0
  }

  /** Beats of the draining frame that have been accepted. */
  function Accepted(d: Drain): int {
    d.rdCount - Bit(d.pending) - Bit(d.valid)
  }

  /** The drain, working on frame f. */
  predicate DrainOk(d: Drain, f: seq<Beat>) {
    && d.len == |f|
    && d.rdCount <= d.len
    && !(d.pending && d.valid)
    && 0 <= Accepted(d) < d.len
    && (d.pending ==> d.ramOut == f[d.rdCount - 1])
    && (d.valid ==> d.out == f[d.rdCount - 1])
    && (!d.pending && !d.valid ==> d.rdCount == 0)
  }

  predicate Idle(d: Drain) {
    !d.active && !d.valid
  }

  lemma NextSlotInRange(slot: nat, cfg: Config)
    requires cfg.Legal() && slot < cfg.slots
    ensures NextSlot(slot, cfg) < cfg.slots
  {
  }

  lemma NextSlotIsNext(slot: nat, cfg: Config)
    requires cfg.Legal() && cfg.Addressed() && slot < cfg.slots
    ensures NextSlot(slot, cfg) == Next(slot, cfg.slots) == Add(slot, 1, cfg.slots)
  {
  }

  lemma ErrorAppend(part: seq<Beat>, b: Beat)
    ensures HasError(part + [b]) == (HasError(part) || b.error)
  {
    if HasError(part) {
      var k :| 0 <= k < |part| && part[k].error;
      assert (part + [b])[k].error;
    }
    if b.error {
      assert (part + [b])[|part|].error;
    }
  }

  /** The unfinished frame after one edge. */
  function NewPart(g: Gate, i: Inputs, part: seq<Beat>): seq<Beat> {
    if !InputAccept(g, i) then part else if i.beat.last then [] else part + [i.beat]
  }

  lemma FillKeeps(g: Gate, i: Inputs, part: seq<Beat>, row: seq<Beat>, next: seq<Beat>)
    requires 0 < |row| == g.cfg.depth && FillOk(g.fill, row, part)
    requires !Commit(g, i) ==> next == if RamWrite(g, i) then row[g.fill.wrPtr := i.beat] else row
    requires |next| == |row|
    ensures FillOk(FillEdge(g, i), next, NewPart(g, i, part))
  {
    ErrorAppend(part, i.beat);
    var w := g.fill.wrPtr;
    if RamWrite(g, i) {
      assert row[w := i.beat][..w + 1] == part + [i.beat];
      if w + 1 < g.cfg.depth {
        ModUnique(w + 1, 0, w + 1, g.cfg.depth);
      }
    }
  }

  /** Exactly a whole, clean frame that fits is committed. */
  lemma CommitsWhatFits(g: Gate, i: Inputs, part: seq<Beat>, row: seq<Beat>)
    requires |row| == g.cfg.depth && FillOk(g.fill, row, part)
    ensures Commit(g, i) <==> InputAccept(g, i) && i.beat.last && Judge(part + [i.beat], g.cfg.depth) == Forward
    ensures Commit(g, i) ==> SlotHolds(g.fill.wrPtr + 1, row[g.fill.wrPtr := i.beat], part + [i.beat])
  {
    ErrorAppend(part, i.beat);
    var w := g.fill.wrPtr;
    assert w < |row| ==> row[w := i.beat][..w + 1] == row[..w] + [i.beat];
  }

  predicate Finishing(g: Gate, i: Inputs) {
    g.drain.active && FinishDrain(g, i)
  }

  /** The committed frame, if this edge commits one. */
  function Committed(g: Gate, i: Inputs, part: seq<Beat>): seq<seq<Beat>> {
    if Commit(g, i) then [part + [i.beat]] else []
  }

  /** The frames in the slots after one edge. */
  function NewQueue(g: Gate, i: Inputs, part: seq<Beat>, queue: seq<seq<Beat>>): seq<seq<Beat>>
    requires Finishing(g, i) ==> queue != []
  {
    (if Finishing(g, i) then queue[1..] else queue) + Committed(g, i, part)
  }

  lemma CountStep(g: Gate, i: Inputs)
    requires g.cfg.Legal() && g.cfg.Addressed() && g.fullCount <= g.cfg.slots
    requires Finishing(g, i) ==> g.fullCount > 0
    ensures CountEdge(g, i) == g.fullCount + Bit(Commit(g, i)) - Bit(Finishing(g, i))
    ensures Commit(g, i) ==> g.fullCount < g.cfg.slots
  {
    if g.fullCount < g.cfg.slots {
      ModUnique(g.fullCount + 1, 0, g.fullCount + 1, 2 * g.cfg.SlotRange());
    }
  }

  /** The two slot pointers stay the number of full slots apart. */
  lemma SlotsApart(cfg: Config, fillSlot: nat, drainSlot: nat, fullCount: nat, inc: bool, dec: bool)
    requires CountOk(cfg, fillSlot, drainSlot, fullCount)
    requires (inc ==> fullCount < cfg.slots) && (dec ==> fullCount > 0)
    ensures CountOk(cfg, if inc then NextSlot(fillSlot, cfg) else fillSlot,
                    if dec then NextSlot(drainSlot, cfg) else drainSlot, fullCount + Bit(inc) - Bit(dec))
  {
    NextSlotIsNext(fillSlot, cfg);
    NextSlotIsNext(drainSlot, cfg);
  }

  /** A slot that holds a complete frame is never written. */
  lemma NoWriteToFullSlot(g: Gate, i: Inputs, k: nat)
    requires CountOk(g.cfg, g.fill.slot, g.drain.slot, g.fullCount) && k < g.fullCount
    ensures RamWrite(g, i) ==> g.fill.slot != Add(g.drain.slot, k, g.cfg.slots)
  {
  }

  /** Taking the oldest frame out and writing one row beside the others keeps the stored frames. */
  lemma StoredPop(slots: nat, slot: nat, lens: seq<nat>, mem: seq<seq<Beat>>, queue: seq<seq<Beat>>)
    requires Stored(slots, slot, lens, mem, queue) && queue != []
    ensures Stored(slots, Add(slot, 1, slots), lens, mem, queue[1..])
  {
  }

  lemma StoredWrite(slots: nat, slot: nat, lens: seq<nat>, mem: seq<seq<Beat>>, queue: seq<seq<Beat>>,
                    row: seq<Beat>)
    requires Stored(slots, slot, lens, mem, queue) && |queue| < slots
    ensures Stored(slots, slot, lens, mem[Add(slot, |queue|, slots) := row], queue)
  {
  }

  lemma StoredPush(slots: nat, slot: nat, lens: seq<nat>, mem: seq<seq<Beat>>, queue: seq<seq<Beat>>,
                   len: nat, row: seq<Beat>, f: seq<Beat>)
    requires Stored(slots, slot, lens, mem, queue) && |queue| < slots && SlotHolds(len, row, f)
    ensures var s := Add(slot, |queue|, slots);
            Stored(slots, slot, lens[s := len], mem[s := row], queue + [f])
  {
  }

  // ---- The drain pipeline, on a frame f with its tlast at the end ----

  /** Draining cycles so far, the stalled ones not counted. */
  function Work(d: Drain): int {
    2 * d.rdCount - Bit(d.pending)
  }

  predicate DrainReady(g: Gate) {
    0 < g.cfg.depth && g.drain.slot < |g.slotLen| && g.drain.slot < |g.mem| && |g.mem[g.drain.slot]| == g.cfg.depth
  }

  lemma DrainStarts(g: Gate, i: Inputs, f: seq<Beat>)
    requires DrainReady(g) && Idle(g.drain) && g.fullCount != 0
    requires SlotHolds(g.slotLen[g.drain.slot], g.mem[g.drain.slot], f)
    ensures var d := DrainEdge(g, i);
            d.active && DrainOk(d, f) && Accepted(d) == 0 && Work(d) == 0 && !OutputAccept(g, i) && !Stalled(g, i)
  {
  }

  lemma DrainRests(g: Gate, i: Inputs)
    requires DrainReady(g) && Idle(g.drain) && g.fullCount == 0
    ensures Idle(DrainEdge(g, i)) && !OutputAccept(g, i) && !Stalled(g, i)
  {
  }

  lemma DrainFinishes(g: Gate, i: Inputs, f: seq<Beat>)
    requires DrainReady(g) && g.drain.active && DrainOk(g.drain, f) && Frame(f) && Finishing(g, i)
    ensures Idle(DrainEdge(g, i)) && !Stalled(g, i)
    ensures Accepted(g.drain) + 1 == |f| && g.drain.out == f[|f| - 1] && Work(g.drain) == 2 * |f|
  {
  }

  lemma DrainRuns(g: Gate, i: Inputs, f: seq<Beat>)
    requires DrainReady(g) && g.drain.active && DrainOk(g.drain, f) && Frame(f) && !Finishing(g, i)
    requires SlotHolds(|f|, g.mem[g.drain.slot], f)
    ensures var d := DrainEdge(g, i);
            && d.active && DrainOk(d, f)
            && Accepted(d) == Accepted(g.drain) + Bit(OutputAccept(g, i))
            && Work(d) == Work(g.drain) + 1 - Bit(Stalled(g, i))
    ensures OutputAccept(g, i) ==> g.drain.out == f[Accepted(g.drain)]
  {
    var r := g.drain.rdCount;
    if RamRead(g, i) {
      ModUnique(r, 0, r, g.cfg.depth);
      ModUnique(r + 1, 0, r + 1, 2 * g.cfg.depth);
      assert g.mem[g.drain.slot][r] == g.mem[g.drain.slot][..|f|][r];
    }
    assert g.drain.valid && r == |f| ==> g.drain.out.last;
  }
}
