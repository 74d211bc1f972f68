/** What holds of the frame gate after any run from reset. */
module FrameGateTheorems {
  import opened Modular
  import opened FrameGate
  import opened Frames
  import opened FrameGateProofs
  import opened FrameGateRuns

  /** The run that one sequence of inputs drives, one clock edge each. */
  function After(v: View, run: seq<Inputs>): (r: View)
    requires Shape(v.gate)
    ensures Shape(r.gate)
  {
    if run == [] then v
    else
      var w := After(v, run[..|run| - 1]);
      EdgeShape(w.gate, run[|run| - 1]);
      Step(w, run[|run| - 1])
  }

  function FromReset(g: Gate, run: seq<Inputs>): View
    requires Initial(g)
  {
    After(View(g, [], [], 0, 0), run)
  }

  lemma InitialInv(g: Gate)
    requires Initial(g) && g.cfg.Addressed()
    ensures Inv(View(g, [], [], 0, 0))
  {
  }

  lemma {:induction false} AfterInv(v: View, run: seq<Inputs>)
    requires Inv(v)
    ensures Inv(After(v, run)) && After(v, run).gate.cfg == v.gate.cfg
  {
    if run == [] {
    } else {
      AfterInv(v, run[..|run| - 1]);
      StepInv(After(v, run[..|run| - 1]), run[|run| - 1]);
    }
  }

  lemma Reachable(g: Gate, run: seq<Inputs>)
    requires Initial(g) && g.cfg.Addressed()
    ensures Inv(FromReset(g, run)) && FromReset(g, run).gate.cfg == g.cfg
  {
    InitialInv(g);
    AfterInv(View(g, [], [], 0, 0), run);
  }

  lemma ConcatSplit(fs: seq<seq<Beat>>, k: nat)
    requires k < |fs|
    ensures Concat(fs[..k]) + fs[k] <= Concat(fs)
  {
    assert fs[..k + 1][..k] == fs[..k] && fs[..k + 1][k] == fs[k];
    ConcatPrefix(fs, k + 1);
  }

  /** The part of a frame under way is the start of that frame. */
  lemma SentPrefix(k: seq<seq<Beat>>, c: nat, n: nat)
    requires c <= |k|
    ensures Concat(First(k, c)) <= Concat(k) && (c == 0 ==> First(k, c) == k)
    ensures c > 0 && n <= |Last(k, c)[0]| ==> Concat(First(k, c)) + Last(k, c)[0][..n] <= Concat(k)
  {
    ConcatPrefix(k, |k| - c);
    if c > 0 {
      ConcatSplit(k, |k| - c);
      assert Last(k, c)[0] == k[|k| - c];
    }
  }

  /**
   The accepted output is always a prefix of the concatenation, in arrival order, of exactly the
   complete frames without an error beat that fit a slot, and all of it once no slot is full.
   */
  lemma Refinement(g: Gate, run: seq<Inputs>)
    requires Initial(g) && g.cfg.Addressed()
    ensures var v := FromReset(g, run);
            var want := Concat(Kept(v.inp, g.cfg.depth));
            v.outs <= want && (v.gate.fullCount == 0 ==> v.outs == want)
  {
    Reachable(g, run);
    var v := FromReset(g, run);
    SentPrefix(Kept(v.inp, g.cfg.depth), v.gate.fullCount, if v.gate.drain.active then Accepted(v.gate.drain) else 0);
  }

  /** The slots in use are the full_count ones before the fill slot, and no write reaches one of them. */
  lemma SlotSafety(g: Gate, run: seq<Inputs>, i: Inputs)
    requires Initial(g) && g.cfg.Addressed()
    ensures var h := FromReset(g, run).gate;
            && h.fullCount <= g.cfg.slots == h.cfg.slots
            && h.drain.slot < g.cfg.slots
            && h.fill.slot == (h.drain.slot + h.fullCount) % g.cfg.slots
            && SparesFullSlots(h, i)
  {
    Reachable(g, run);
    var h := FromReset(g, run).gate;
    AddIsMod(h.drain.slot, h.fullCount, g.cfg.slots);
    forall k | 0 <= k < h.fullCount ensures RamWrite(h, i) ==> Add(h.drain.slot, k, g.cfg.slots) != h.fill.slot {
      NoWriteToFullSlot(h, i, k);
    }
  }

  /** This edge writes no slot that holds a complete frame. */
  predicate SparesFullSlots(h: Gate, i: Inputs)
    requires Shape(h)
  {
    RamWrite(h, i) ==>
      forall k :: 0 <= k < h.fullCount && k < h.cfg.slots ==> Add(h.drain.slot, k, h.cfg.slots) != h.fill.slot
  }

  lemma Sums(a: nat, b: nat, c: nat)
    ensures (a % WORD + b) % WORD == (a + b) % WORD
    ensures (a % WORD + b % WORD + c % WORD) % WORD == (a + b + c) % WORD
  {
    CountMod(a, b);
    CountMod(a, b % WORD + c % WORD);
    CountMod(b, a + c % WORD);
    CountMod(c, a + b);
  }

  lemma FillCounted(f: Fill, fs: seq<seq<Beat>>, depth: nat)
    requires FillTally(f, fs, depth) && !f.drop
    ensures f.overflow == |Pick(fs, Overflow, depth)| % WORD
    ensures (f.good + f.dropped + f.overflow) % WORD == |fs| % WORD
  {
    PickPartitions(fs, depth);
    Sums(|Pick(fs, Forward, depth)|, |Pick(fs, Bad, depth)|, |Pick(fs, Overflow, depth)|);
  }

  lemma GoodConserved(k: nat, c: nat)
    requires c <= k
    ensures k % WORD == Count((k - c) % WORD, c)
  {
    CountMod(k - c, c);
  }

  // ---- What holds for any number of slots ----

  predicate Piped(d: Drain) {
    if d.active then !(d.pending && d.valid) && (d.out.last ==> d.valid)
    else !d.valid && !d.out.last && !d.out.sof
  }

  /** The incoming frame, the verdict counters and the output register. */
  predicate Local(v: View) {
    && Shape(v.gate)
    && FillOk(v.gate.fill, v.gate.mem[v.gate.fill.slot], Split(v.inp).part)
    && FillTally(v.gate.fill, Split(v.inp).frames, v.gate.cfg.depth)
    && Piped(v.gate.drain)
    && Buckets(v.gate.drain.stats) % WORD == v.gate.drain.stats.samples
  }

  lemma StepDrain(g: Gate, i: Inputs)
    requires Shape(g) && Piped(g.drain) && Buckets(g.drain.stats) % WORD == g.drain.stats.samples
    ensures Piped(DrainEdge(g, i))
    ensures Buckets(DrainEdge(g, i).stats) % WORD == DrainEdge(g, i).stats.samples
  {
    StatsEdge(g, i);
    BucketsStep(g.drain);
  }

  lemma StepLocal(v: View, i: Inputs)
    requires Local(v)
    ensures Local(Step(v, i)) && Step(v, i).gate.cfg == v.gate.cfg
    ensures Kept(Step(v, i).inp, v.gate.cfg.depth)
         == Kept(v.inp, v.gate.cfg.depth) + Committed(v.gate, i, Split(v.inp).part)
  {
    var g, p := v.gate, Split(v.inp);
    EdgeShape(g, i);
    SplitStep(v, i);
    KeptStep(v, i, p, g.mem[g.fill.slot]);
    FillTallyKeeps(g, i, p.frames, p.part, g.mem[g.fill.slot]);
    FillKeeps(g, i, p.part, g.mem[g.fill.slot], MemEdge(g, i)[Edge(g, i).fill.slot]);
    StepDrain(g, i);
  }

  lemma {:induction false} AfterLocal(v: View, run: seq<Inputs>)
    requires Local(v)
    ensures Local(After(v, run)) && After(v, run).gate.cfg == v.gate.cfg
  {
    if run == [] {
    } else {
      AfterLocal(v, run[..|run| - 1]);
      StepLocal(After(v, run[..|run| - 1]), run[|run| - 1]);
    }
  }

  /** A beat that is offered and not accepted is offered again at the next edge, unchanged. */
  lemma OfferIsStable(g: Gate, run: seq<Inputs>, i: Inputs)
    requires Initial(g)
    ensures var d := FromReset(g, run).gate.drain;
            var d' := FromReset(g, run + [i]).gate.drain;
            d.valid && !i.ready ==> d'.valid && d'.out == d.out
  {
    AfterLocal(View(g, [], [], 0, 0), run);
    assert (run + [i])[..|run|] == run;
  }

  /**
   The gate takes a beat exactly if a slot is free or the frame it belongs to has outgrown its slot
   already; and it shows no tlast without a valid beat, and no sidebands between two frames.
   */
  lemma ReadyIff(g: Gate, run: seq<Inputs>)
    requires Initial(g)
    ensures var v := FromReset(g, run);
            && (Ready(v.gate) <==> v.gate.fullCount < g.cfg.slots || |Split(v.inp).part| >= g.cfg.depth)
            && (v.gate.fill.drop <==> |Split(v.inp).part| >= g.cfg.depth)
            && (v.gate.drain.out.last ==> v.gate.drain.valid)
            && (!v.gate.drain.active ==> !v.gate.drain.valid && !v.gate.drain.out.last && !v.gate.drain.out.sof)
  {
    AfterLocal(View(g, [], [], 0, 0), run);
  }

  /** Every frame is counted under its verdict, and every sample has a bucket. */
  lemma Verdicts(g: Gate, run: seq<Inputs>)
    requires Initial(g)
    ensures var v := FromReset(g, run);
            var f, s, fs := v.gate.fill, v.gate.drain.stats, Split(v.inp).frames;
            && f.good == |Pick(fs, Forward, g.cfg.depth)| % WORD
            && f.dropped == |Pick(fs, Bad, g.cfg.depth)| % WORD
            && Buckets(s) % WORD == s.samples
            && (Split(v.inp).part == [] ==>
                  && f.overflow == |Pick(fs, Overflow, g.cfg.depth)| % WORD
                  && (f.good + f.dropped + f.overflow) % WORD == |fs| % WORD)
  {
    AfterLocal(View(g, [], [], 0, 0), run);
    var v := FromReset(g, run);
    if !v.gate.fill.drop {
      FillCounted(v.gate.fill, Split(v.inp).frames, g.cfg.depth);
    }
  }

  /** Good frames are conserved: each was sent or is in a slot. */
  lemma Conservation(g: Gate, run: seq<Inputs>)
    requires Initial(g) && g.cfg.Addressed()
    ensures var h := FromReset(g, run).gate;
            h.fill.good == Count(h.drain.stats.samples, h.fullCount)
  {
    Reachable(g, run);
    var v := FromReset(g, run);
    GoodConserved(|Kept(v.inp, g.cfg.depth)|, v.gate.fullCount);
  }

  /**
   Sending a frame of L beats takes exactly 2L + 1 draining cycles and those in which it was
   offered and not taken; drain_cycles_total says so modulo 2^32 whenever the drain is idle.
   */
  lemma DrainCost(g: Gate, run: seq<Inputs>)
    requires Initial(g) && g.cfg.Addressed()
    ensures var v := FromReset(g, run);
            var k, c, s := Kept(v.inp, g.cfg.depth), v.gate.fullCount, v.gate.drain.stats;
            c <= |k| && (!v.gate.drain.active ==>
              && v.outs == Concat(First(k, c))
              && v.busy == Cost(First(k, c)) + v.stalls
              && s.samples == (|k| - c) % WORD
              && s.low == v.stalls % WORD
              && s.total == (Cost(First(k, c)) + s.low) % WORD)
  {
    Reachable(g, run);
    var v := FromReset(g, run);
    var k := Kept(v.inp, g.cfg.depth);
    var sent := First(k, v.gate.fullCount);
    if !v.gate.drain.active {
      CountMod(v.stalls, Cost(sent));
      CountMod(v.gate.drain.stats.total, 0);
      ModUnique(v.gate.drain.stats.total, 0, v.gate.drain.stats.total, WORD);
    }
  }

  /** The cycles sampled for a frame at its last beat: 2L + 1 and its own stalls. */
  lemma SampleCost(g: Gate, run: seq<Inputs>, i: Inputs)
    requires Initial(g) && g.cfg.Addressed()
    ensures var v := FromReset(g, run);
            var d, k, c := v.gate.drain, Kept(v.inp, g.cfg.depth), v.gate.fullCount;
            Finishing(v.gate, i) ==>
              0 < c <= |k| && Count(d.cycles, 1) == Count(d.low, 2 * |k[|k| - c]| + 1)
  {
    Reachable(g, run);
    var v := FromReset(g, run);
    var d, k, c := v.gate.drain, Kept(v.inp, g.cfg.depth), v.gate.fullCount;
    KeptAreFrames(v.inp, g.cfg.depth);
    if Finishing(v.gate, i) {
      var f := Last(k, c)[0];
      assert Frame(f);
      DrainFinishes(v.gate, i, f);
      Wrapped(d.low, Work(d), 1);
      CountMod(d.low + Work(d), 1);
    }
  }

  // ---- The gate empties ----

  /** Edges it takes to empty the slots while the sink is ready and nothing arrives. */
  function Left(v: View): int {
    var k, c := Kept(v.inp, v.gate.cfg.depth), v.gate.fullCount;
    if c <= |k| then Cost(Last(k, c)) + c - (if v.gate.drain.active then Work(v.gate.drain) + 1 else 0) else 0
  }

  lemma {:induction false} CostPop(q: seq<seq<Beat>>)
    requires q != []
    ensures Cost(q) == 2 * |q[0]| + 1 + Cost(q[1..])
  {
    if |q| > 1 {
      var n := |q| - 1;
      CostPop(q[..n]);
      assert q[..n][1..] == q[1..][..n - 1];
    } else {
      assert q[..0] == [];
    }
  }

  const QUIET := Inputs(false, Beat(0, false, false, false), true)

  function Quiets(n: nat): seq<Inputs> {
    seq(n, _ => QUIET)
  }

  lemma QuietStep(v: View)
    requires Inv(v) && v.gate.fullCount > 0
    ensures Inv(Step(v, QUIET)) && Step(v, QUIET).inp == v.inp && Step(v, QUIET).gate.cfg == v.gate.cfg
    ensures Left(Step(v, QUIET)) == Left(v) - 1
  {
    StepInv(v, QUIET);
    var p, k, c := Split(v.inp), Kept(v.inp, v.gate.cfg.depth), v.gate.fullCount;
    KeptAreFrames(v.inp, v.gate.cfg.depth);
    StepParsed(v, QUIET, k, c, p);
    var q := Last(k, c);
    CostPop(q);
    assert Frame(q[0]);
    assert Add(v.gate.drain.slot, 0, v.gate.cfg.slots) == v.gate.drain.slot;
    assert SlotHolds(v.gate.slotLen[v.gate.drain.slot], v.gate.mem[v.gate.drain.slot], q[0]);
    if !v.gate.drain.active {
      DrainStarts(v.gate, QUIET, q[0]);
    } else if Finishing(v.gate, QUIET) {
      DrainFinishes(v.gate, QUIET, q[0]);
    } else {
      DrainRuns(v.gate, QUIET, q[0]);
    }
  }

  lemma QuietLast(v: View, n: nat)
    requires Shape(v.gate) && 0 < n
    ensures After(v, Quiets(n)) == Step(After(v, Quiets(n - 1)), QUIET)
  {
    assert Quiets(n)[..n - 1] == Quiets(n - 1);
  }

  lemma {:induction false} QuietRun(v: View, n: nat)
    requires Inv(v) && n <= Left(v)
    ensures var w := After(v, Quiets(n));
            Inv(w) && w.inp == v.inp && w.gate.cfg == v.gate.cfg && Left(w) == Left(v) - n
  {
    if n == 0 {
    } else {
      QuietRun(v, n - 1);
      var w := After(v, Quiets(n - 1));
      QuietLast(v, n);
      LeftPositive(w);
      QuietStep(w);
    }
  }

  /** Nothing is left to do exactly when no slot is full. */
  lemma LeftPositive(v: View)
    requires Inv(v)
    ensures Left(v) >= 0 && (Left(v) == 0 <==> v.gate.fullCount == 0)
  {
    var k, c := Kept(v.inp, v.gate.cfg.depth), v.gate.fullCount;
    if c > 0 {
      CostPop(Last(k, c));
    }
  }

  /** With a ready sink and no input the gate is empty after exactly Left edges, having sent everything. */
  lemma Empties(g: Gate, run: seq<Inputs>)
    requires Initial(g) && g.cfg.Addressed()
    ensures var v := FromReset(g, run);
            Left(v) >= 0 &&
            var w := After(v, Quiets(Left(v)));
            w.gate.fullCount == 0 && w.outs == Concat(Kept(v.inp, g.cfg.depth))
    ensures forall n: nat :: n < Left(FromReset(g, run)) ==>
              After(FromReset(g, run), Quiets(n)).gate.fullCount != 0
  {
    Reachable(g, run);
    var v := FromReset(g, run);
    LeftPositive(v);
    forall n: nat | n <= Left(v)
      ensures After(v, Quiets(n)).gate.fullCount == 0 <==> n == Left(v)
    {
      QuietRun(v, n);
      LeftPositive(After(v, Quiets(n)));
    }
    var w := After(v, Quiets(Left(v)));
    QuietRun(v, Left(v));
    LeftPositive(w);
    assert First(Kept(v.inp, g.cfg.depth), 0) == Kept(v.inp, g.cfg.depth);
  }
}
