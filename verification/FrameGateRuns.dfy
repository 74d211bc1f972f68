/** Whole runs of the frame gate: what it forwards, what it costs and what its counters say. */
module FrameGateRuns {
  import opened Modular
  import opened FrameGate
  import opened Frames
  import opened FrameGateProofs

  /** A run so far: the gate, the accepted beats on both sides, the draining edges, the stalled ones. */
  datatype View = View(gate: Gate, inp: seq<Beat>, outs: seq<Beat>, busy: nat, stalls: nat)

  function Step(v: View, i: Inputs): View
    requires Shape(v.gate)
  {
    View(Edge(v.gate, i),
         if InputAccept(v.gate, i) then v.inp + [i.beat] else v.inp,
         if OutputAccept(v.gate, i) then v.outs + [v.gate.drain.out] else v.outs,
         if v.gate.drain.active then v.busy + 1 else v.busy,
         if Stalled(v.gate, i) then v.stalls + 1 else v.stalls)
  }

  // ---- The store ----

  predicate Store(g: Gate, part: seq<Beat>, queue: seq<seq<Beat>>) {
    && Shape(g)
    && CountOk(g.cfg, g.fill.slot, g.drain.slot, g.fullCount)
    && FillOk(g.fill, g.mem[g.fill.slot], part)
    && |queue| == g.fullCount
    && Stored(g.cfg.slots, g.drain.slot, g.slotLen, g.mem, queue)
  }

  lemma EdgeShape(g: Gate, i: Inputs)
    requires Shape(g)
    ensures Shape(Edge(g, i)) && Edge(g, i).cfg == g.cfg
    ensures Edge(g, i).fill.slot == if Commit(g, i) then NextSlot(g.fill.slot, g.cfg) else g.fill.slot
    ensures Edge(g, i).drain.slot == if Finishing(g, i) then NextSlot(g.drain.slot, g.cfg) else g.drain.slot
  {
    NextSlotInRange(g.fill.slot, g.cfg);
    NextSlotInRange(g.drain.slot, g.cfg);
  }

  lemma MemKeeps(g: Gate, i: Inputs, part: seq<Beat>, queue: seq<seq<Beat>>)
    requires Store(g, part, queue) && (Finishing(g, i) ==> queue != [])
    ensures Stored(g.cfg.slots, if Finishing(g, i) then NextSlot(g.drain.slot, g.cfg) else g.drain.slot,
                   LenEdge(g, i), MemEdge(g, i), NewQueue(g, i, part, queue))
  {
    var n := g.cfg.slots;
    var row := g.mem[g.fill.slot];
    NextSlotIsNext(g.drain.slot, g.cfg);
    CommitsWhatFits(g, i, part, row);
    var q := queue + Committed(g, i, part);
    assert Stored(n, g.drain.slot, LenEdge(g, i), MemEdge(g, i), q) by {
      if Commit(g, i) {
        StoredPush(n, g.drain.slot, g.slotLen, g.mem, queue, g.fill.wrPtr + 1, row[g.fill.wrPtr := i.beat],
                   part + [i.beat]);
      } else if RamWrite(g, i) {
        StoredWrite(n, g.drain.slot, g.slotLen, g.mem, queue, row[g.fill.wrPtr := i.beat]);
      }
      assert queue + [] == queue;
    }
    if Finishing(g, i) {
      StoredPop(n, g.drain.slot, LenEdge(g, i), MemEdge(g, i), q);
      assert q[1..] == NewQueue(g, i, part, queue);
    } else {
      assert q == NewQueue(g, i, part, queue);
    }
  }

  lemma StoreKeeps(g: Gate, i: Inputs, part: seq<Beat>, queue: seq<seq<Beat>>)
    requires Store(g, part, queue) && (Finishing(g, i) ==> queue != [])
    ensures Shape(g) && Store(Edge(g, i), NewPart(g, i, part), NewQueue(g, i, part, queue))
  {
    EdgeShape(g, i);
    CountStep(g, i);
    SlotsApart(g.cfg, g.fill.slot, g.drain.slot, g.fullCount, Commit(g, i), Finishing(g, i));
    MemKeeps(g, i, part, queue);
    FillKeeps(g, i, part, g.mem[g.fill.slot], MemEdge(g, i)[Edge(g, i).fill.slot]);
  }

  // ---- The drain ----

  /** The output so far: the frames sent, and the accepted part of the next. */
  predicate Drained(g: Gate, outs: seq<Beat>, busy: nat, stalls: nat, sent: seq<seq<Beat>>, queue: seq<seq<Beat>>) {
    var d := g.drain;
    if d.active then
      && queue != [] && DrainOk(d, queue[0])
      && outs == Concat(sent) + queue[0][..Accepted(d)]
      && busy == Cost(sent) + stalls + Work(d)
    else
      Idle(d) && outs == Concat(sent) && busy == Cost(sent) + stalls
  }

  function NewSent(g: Gate, i: Inputs, sent: seq<seq<Beat>>, queue: seq<seq<Beat>>): seq<seq<Beat>>
    requires Finishing(g, i) ==> queue != []
  {
    if Finishing(g, i) then sent + [queue[0]] else sent
  }

  /** The drain slot holds the oldest stored frame. */
  predicate HeadHeld(g: Gate, queue: seq<seq<Beat>>) {
    && DrainReady(g) && |queue| == g.fullCount
    && (queue != [] ==> Frame(queue[0]) && SlotHolds(g.slotLen[g.drain.slot], g.mem[g.drain.slot], queue[0]))
  }

  lemma StoreHead(g: Gate, part: seq<Beat>, queue: seq<seq<Beat>>)
    requires Store(g, part, queue) && AllFrames(queue)
    ensures HeadHeld(g, queue)
  {
  }

  lemma FinishKeeps(v: View, i: Inputs, sent: seq<seq<Beat>>, queue: seq<seq<Beat>>)
    requires HeadHeld(v.gate, queue) && Drained(v.gate, v.outs, v.busy, v.stalls, sent, queue)
    requires Finishing(v.gate, i)
    ensures !DrainEdge(v.gate, i).active && Idle(DrainEdge(v.gate, i)) && !Stalled(v.gate, i)
    ensures v.outs + [v.gate.drain.out] == Concat(sent + [queue[0]])
    ensures v.busy + 1 == Cost(sent + [queue[0]]) + v.stalls
  {
  }

  lemma RunKeeps(v: View, i: Inputs, sent: seq<seq<Beat>>, queue: seq<seq<Beat>>)
    requires Shape(v.gate) && HeadHeld(v.gate, queue) && !Finishing(v.gate, i) && v.gate.drain.active
    requires Drained(v.gate, v.outs, v.busy, v.stalls, sent, queue)
    ensures var v' := Step(v, i);
            Drained(v'.gate, v'.outs, v'.busy, v'.stalls, sent, queue)
  {
    DrainRuns(v.gate, i, queue[0]);
  }

  lemma DrainKeeps(v: View, i: Inputs, sent: seq<seq<Beat>>, queue: seq<seq<Beat>>, more: seq<seq<Beat>>)
    requires Shape(v.gate) && HeadHeld(v.gate, queue)
    requires Drained(v.gate, v.outs, v.busy, v.stalls, sent, queue)
    ensures Finishing(v.gate, i) ==> queue != []
    ensures var v' := Step(v, i);
            Drained(v'.gate, v'.outs, v'.busy, v'.stalls, NewSent(v.gate, i, sent, queue),
                    (if Finishing(v.gate, i) then queue[1..] else queue) + more)
  {
    var g := v.gate;
    if !g.drain.active && queue == [] {
      DrainRests(g, i);
    } else if !g.drain.active {
      DrainStarts(g, i, queue[0]);
      assert Concat(sent) + queue[0][..0] == Concat(sent);
    } else if Finishing(g, i) {
      FinishKeeps(v, i, sent, queue);
    } else {
      RunKeeps(v, i, sent, queue);
    }
  }

  // ---- The counters ----

  predicate FillTally(f: Fill, fs: seq<seq<Beat>>, depth: nat) {
    && f.good == |Pick(fs, Forward, depth)| % WORD
    && f.dropped == |Pick(fs, Bad, depth)| % WORD
    && f.overflow == (|Pick(fs, Overflow, depth)| + Bit(f.drop)) % WORD
  }

  /** The statistics, and the cycles of the frame under way. */
  predicate StatsTally(s: Stats, cycles: nat, sent: nat, busy: nat, stalls: nat) {
    && s.samples == sent % WORD
    && Buckets(s) % WORD == s.samples
    && s.low == stalls % WORD && s.lowSamples == stalls % WORD
    && Count(s.total, cycles) == busy % WORD
    && s.total < WORD
  }

  function CyclesOf(d: Drain): nat {
    if d.active then d.cycles else 0
  }

  /** The completed frames after one edge. */
  function NewFrames(g: Gate, i: Inputs, fs: seq<seq<Beat>>, part: seq<Beat>): seq<seq<Beat>> {
    if InputAccept(g, i) && i.beat.last then fs + [part + [i.beat]] else fs
  }

  lemma FillTallyKeeps(g: Gate, i: Inputs, fs: seq<seq<Beat>>, part: seq<Beat>, row: seq<Beat>)
    requires 0 < |row| == g.cfg.depth && FillOk(g.fill, row, part) && FillTally(g.fill, fs, g.cfg.depth)
    ensures FillTally(FillEdge(g, i), NewFrames(g, i, fs, part), g.cfg.depth)
    ensures Pick(NewFrames(g, i, fs, part), Forward, g.cfg.depth)
         == Pick(fs, Forward, g.cfg.depth) + if Commit(g, i) then [part + [i.beat]] else []
  {
    var d := g.cfg.depth;
    var f := part + [i.beat];
    CommitsWhatFits(g, i, part, row);
    ErrorAppend(part, i.beat);
    PickAppend(fs, f, Forward, d);
    PickAppend(fs, f, Bad, d);
    PickAppend(fs, f, Overflow, d);
    CountMod(|Pick(fs, Forward, d)|, 1);
    CountMod(|Pick(fs, Bad, d)|, 1);
    CountMod(|Pick(fs, Overflow, d)|, 1);
  }

  lemma Wrapped(a: nat, b: nat, n: nat)
    ensures Count(a, Count(b, n)) == Count(a, b + n) == Count(Count(a, b), n)
  {
    CountMod(b + n, a);
    CountMod(a + b, n);
  }

  /** The five histogram buckets together. */
  function Buckets(s: Stats): nat {
    s.lt50 + s.lt100 + s.lt200 + s.lt500 + s.ge500
  }

  lemma BucketUp(s: Stats, t: Stats, x: nat)
    requires x <= Buckets(s) && Buckets(t) == Buckets(s) - x + Count(x, 1)
    ensures Buckets(t) % WORD == Count(Buckets(s) % WORD, 1)
  {
    Wrapped(Buckets(s) - x, x, 1);
    CountMod(Buckets(s), 1);
  }

  /** One bucket takes each sample. */
  lemma BucketsStep(d: Drain)
    ensures Buckets(Sample(d)) % WORD == Count(Buckets(d.stats) % WORD, 1)
  {
    var s := d.stats;
    var c := Count(d.cycles, 1);
    BucketUp(s, Sample(d), if c < 5000 then s.lt50 else if c < 10000 then s.lt100
                           else if c < 20000 then s.lt200 else if c < 50000 then s.lt500 else s.ge500);
  }

  lemma TallySample(d: Drain, sent: nat, busy: nat, stalls: nat)
    requires StatsTally(d.stats, d.cycles, sent, busy, stalls)
    ensures StatsTally(Sample(d), 0, sent + 1, busy + 1, stalls)
  {
    CountMod(sent, 1);
    CountMod(busy, 1);
    Wrapped(d.stats.total, d.cycles, 1);
    CountMod(d.stats.total + d.cycles + 1, 0);
    BucketsStep(d);
  }

  lemma TallyCycle(s: Stats, cycles: nat, sent: nat, busy: nat, stalls: nat)
    requires StatsTally(s, cycles, sent, busy, stalls)
    ensures StatsTally(s, Count(cycles, 1), sent, busy + 1, stalls)
    ensures StatsTally(s.(low := Count(s.low, 1), lowSamples := Count(s.lowSamples, 1)),
                       Count(cycles, 1), sent, busy + 1, stalls + 1)
  {
    CountMod(busy, 1);
    CountMod(stalls, 1);
    Wrapped(s.total, cycles, 1);
  }

  /** The statistics registers after one edge. */
  lemma StatsEdge(g: Gate, i: Inputs)
    requires DrainReady(g) && (FinishDrain(g, i) ==> g.drain.active)
    ensures var d, d' := g.drain, DrainEdge(g, i);
            && d'.stats == (if Finishing(g, i) then Sample(d)
                            else if Stalled(g, i) then
                              d.stats.(low := Count(d.stats.low, 1), lowSamples := Count(d.stats.lowSamples, 1))
                            else d.stats)
            && CyclesOf(d') == if Finishing(g, i) || !d.active then 0 else Count(d.cycles, 1)
  {
  }

  lemma StatsTallyKeeps(v: View, i: Inputs, sent: nat)
    requires DrainReady(v.gate) && StatsTally(v.gate.drain.stats, CyclesOf(v.gate.drain), sent, v.busy, v.stalls)
    requires FinishDrain(v.gate, i) ==> v.gate.drain.active
    ensures StatsTally(DrainEdge(v.gate, i).stats, CyclesOf(DrainEdge(v.gate, i)), sent + Bit(Finishing(v.gate, i)),
                       if v.gate.drain.active then v.busy + 1 else v.busy,
                       if Stalled(v.gate, i) then v.stalls + 1 else v.stalls)
  {
    StatsEdge(v.gate, i);
    if Finishing(v.gate, i) {
      TallySample(v.gate.drain, sent, v.busy, v.stalls);
    } else if v.gate.drain.active {
      TallyCycle(v.gate.drain.stats, v.gate.drain.cycles, sent, v.busy, v.stalls);
    }
  }

  /** The cycle counter of the frame being drained: two cycles a beat, and its stalls. */
  predicate Paced(d: Drain) {
    d.active ==> 0 <= Work(d) && d.cycles == Count(d.low, Work(d))
  }

  /** One more cycle, counted as work or as a stall. */
  lemma OneCycle(low: nat, work: nat)
    ensures Count(Count(low, work), 1) == Count(low, work + 1) == Count(Count(low, 1), work)
  {
    Wrapped(low, work, 1);
    Wrapped(work, low, 1);
  }

  lemma PacedKeeps(g: Gate, i: Inputs, f: seq<Beat>)
    requires DrainReady(g) && Paced(g.drain) && g.drain.active && DrainOk(g.drain, f) && Frame(f)
    requires SlotHolds(|f|, g.mem[g.drain.slot], f) && !Finishing(g, i)
    ensures Paced(DrainEdge(g, i))
  {
    DrainRuns(g, i, f);
    OneCycle(g.drain.low, Work(g.drain));
  }

  // ---- All of it ----

  /** The frames: coming in, in the slots, going out. */
  predicate Flow(v: View, part: seq<Beat>, sent: seq<seq<Beat>>, queue: seq<seq<Beat>>) {
    Store(v.gate, part, queue) && Drained(v.gate, v.outs, v.busy, v.stalls, sent, queue)
  }

  /** The counters. */
  predicate Tallies(v: View, frames: seq<seq<Beat>>, sent: nat) {
    && FillTally(v.gate.fill, frames, v.gate.cfg.depth)
    && StatsTally(v.gate.drain.stats, CyclesOf(v.gate.drain), sent, v.busy, v.stalls)
    && Paced(v.gate.drain)
  }

  /** The complete frames in the slots are the last full_count of those to forward. */
  function Last(k: seq<seq<Beat>>, c: nat): seq<seq<Beat>>
    requires c <= |k|
  {
    k[|k| - c..]
  }

  /** The frames that have left are the others. */
  function First(k: seq<seq<Beat>>, c: nat): seq<seq<Beat>>
    requires c <= |k|
  {
    k[..|k| - c]
  }

  predicate Inv(v: View) {
    var k, c := Kept(v.inp, v.gate.cfg.depth), v.gate.fullCount;
    && c <= |k|
    && Flow(v, Split(v.inp).part, First(k, c), Last(k, c))
    && Tallies(v, Split(v.inp).frames, |k| - c)
  }

  lemma KeptAreFrames(inp: seq<Beat>, depth: nat)
    ensures AllFrames(Kept(inp, depth))
  {
    SplitCuts(inp);
    var fs := Split(inp).frames;
    PickMembers(fs, Forward, depth);
    var k := Kept(inp, depth);
    forall j | 0 <= j < |k| ensures Frame(k[j]) {
      assert k[j] in fs;
    }
  }

  /** The parse of the input after one edge. */
  function NewParsed(g: Gate, i: Inputs, p: Parsed): Parsed {
    Parsed(NewFrames(g, i, p.frames, p.part), NewPart(g, i, p.part))
  }

  lemma SplitStep(v: View, i: Inputs)
    requires Shape(v.gate)
    ensures Split(Step(v, i).inp) == NewParsed(v.gate, i, Split(v.inp))
  {
    if InputAccept(v.gate, i) {
      assert (v.inp + [i.beat])[..|v.inp|] == v.inp;
    }
  }

  /** A queue cut from the end of the forwarded frames moves as the slots do. */
  lemma QueueStep(k: seq<seq<Beat>>, c: nat, more: seq<seq<Beat>>, pop: bool)
    requires c <= |k| && |more| <= 1 && (pop ==> c > 0)
    ensures var k', c' := k + more, c + |more| - Bit(pop);
            var q, s := Last(k, c), First(k, c);
            && Last(k', c') == (if pop then q[1..] else q) + more
            && First(k', c') == if pop then s + [q[0]] else s
  {
  }

  lemma FlowKeeps(v: View, i: Inputs, part: seq<Beat>, sent: seq<seq<Beat>>, queue: seq<seq<Beat>>)
    requires Flow(v, part, sent, queue) && AllFrames(queue)
    ensures Finishing(v.gate, i) ==> queue != []
    ensures Flow(Step(v, i), NewPart(v.gate, i, part), NewSent(v.gate, i, sent, queue),
                 NewQueue(v.gate, i, part, queue))
  {
    StoreHead(v.gate, part, queue);
    DrainKeeps(v, i, sent, queue, Committed(v.gate, i, part));
    StoreKeeps(v.gate, i, part, queue);
  }

  lemma FlowPaced(v: View, i: Inputs, part: seq<Beat>, sent: seq<seq<Beat>>, queue: seq<seq<Beat>>)
    requires Flow(v, part, sent, queue) && AllFrames(queue) && Paced(v.gate.drain)
    ensures Paced(DrainEdge(v.gate, i))
  {
    var g := v.gate;
    if g.drain.active && !Finishing(g, i) {
      assert Add(g.drain.slot, 0, g.cfg.slots) == g.drain.slot;
      PacedKeeps(g, i, queue[0]);
    }
  }

  lemma FoldTallies(v: View, frames: seq<seq<Beat>>, sent: nat)
    requires FillTally(v.gate.fill, frames, v.gate.cfg.depth) && Paced(v.gate.drain)
    requires StatsTally(v.gate.drain.stats, CyclesOf(v.gate.drain), sent, v.busy, v.stalls)
    ensures Tallies(v, frames, sent)
  {
  }

  lemma TalliesKeep(v: View, i: Inputs, p: Parsed, sent: nat, row: seq<Beat>)
    requires Shape(v.gate) && |row| == v.gate.cfg.depth && FillOk(v.gate.fill, row, p.part)
    requires FinishDrain(v.gate, i) ==> v.gate.drain.active
    requires Tallies(v, p.frames, sent) && Paced(DrainEdge(v.gate, i))
    ensures Tallies(Step(v, i), NewFrames(v.gate, i, p.frames, p.part), sent + Bit(Finishing(v.gate, i)))
  {
    FillTallyKeeps(v.gate, i, p.frames, p.part, row);
    StatsTallyKeeps(v, i, sent);
    FoldTallies(Step(v, i), NewFrames(v.gate, i, p.frames, p.part), sent + Bit(Finishing(v.gate, i)));
  }

  /** What an edge adds to the forwarded frames, and takes from the slots. */
  lemma KeptStep(v: View, i: Inputs, p: Parsed, row: seq<Beat>)
    requires Shape(v.gate) && |row| == v.gate.cfg.depth && FillOk(v.gate.fill, row, p.part)
    requires FillTally(v.gate.fill, p.frames, v.gate.cfg.depth) && p == Split(v.inp)
    ensures Kept(Step(v, i).inp, v.gate.cfg.depth) == Kept(v.inp, v.gate.cfg.depth) + Committed(v.gate, i, p.part)
  {
    FillTallyKeeps(v.gate, i, p.frames, p.part, row);
    SplitStep(v, i);
  }

  lemma StepParsed(v: View, i: Inputs, k: seq<seq<Beat>>, c: nat, p: Parsed)
    requires k == Kept(v.inp, v.gate.cfg.depth) && c == v.gate.fullCount <= |k| && p == Split(v.inp)
    requires Flow(v, p.part, First(k, c), Last(k, c)) && FillTally(v.gate.fill, p.frames, v.gate.cfg.depth)
    ensures var k', c' := Kept(Step(v, i).inp, v.gate.cfg.depth), Step(v, i).gate.fullCount;
            && c' <= |k'|
            && (Finishing(v.gate, i) ==> Last(k, c) != [])
            && Last(k', c') == NewQueue(v.gate, i, p.part, Last(k, c))
            && First(k', c') == NewSent(v.gate, i, First(k, c), Last(k, c))
  {
    var more := Committed(v.gate, i, p.part);
    KeptStep(v, i, p, v.gate.mem[v.gate.fill.slot]);
    CountStep(v.gate, i);
    QueueStep(k, c, more, Finishing(v.gate, i));
    assert Step(v, i).gate.fullCount == c + |more| - Bit(Finishing(v.gate, i));
  }

  lemma FoldInv(v: View, p: Parsed, sent: seq<seq<Beat>>, queue: seq<seq<Beat>>)
    requires p == Split(v.inp) && v.gate.fullCount <= |Kept(v.inp, v.gate.cfg.depth)|
    requires sent == First(Kept(v.inp, v.gate.cfg.depth), v.gate.fullCount)
    requires queue == Last(Kept(v.inp, v.gate.cfg.depth), v.gate.fullCount)
    requires Flow(v, p.part, sent, queue) && Tallies(v, p.frames, |sent|)
    ensures Inv(v)
  {
  }

  /** The counters of an invariant state, after one edge. */
  lemma FlowTallies(v: View, i: Inputs, p: Parsed, sent: seq<seq<Beat>>, queue: seq<seq<Beat>>)
    requires Flow(v, p.part, sent, queue) && Tallies(v, p.frames, |sent|) && AllFrames(queue)
    ensures Tallies(Step(v, i), NewFrames(v.gate, i, p.frames, p.part), |sent| + Bit(Finishing(v.gate, i)))
  {
    FlowPaced(v, i, p.part, sent, queue);
    TalliesKeep(v, i, p, |sent|, v.gate.mem[v.gate.fill.slot]);
  }

  lemma StepInv(v: View, i: Inputs)
    requires Inv(v)
    ensures Inv(Step(v, i)) && Step(v, i).gate.cfg == v.gate.cfg
  {
    var p, k, c := Split(v.inp), Kept(v.inp, v.gate.cfg.depth), v.gate.fullCount;
    var sent, queue := First(k, c), Last(k, c);
    assert AllFrames(queue) by {
      KeptAreFrames(v.inp, v.gate.cfg.depth);
    }
    FlowKeeps(v, i, p.part, sent, queue);
    FlowTallies(v, i, p, sent, queue);
    StepParsed(v, i, k, c, p);
    SplitStep(v, i);
    FoldInv(Step(v, i), NewParsed(v.gate, i, p), NewSent(v.gate, i, sent, queue), NewQueue(v.gate, i, p.part, queue));
  }
}
