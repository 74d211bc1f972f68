/**
 The slot registers are four bits wide at most, and SLOT_COUNT is not checked against them. What the
 gate promises about its slots holds for 16 slots and fewer, and fails for every larger number.
 */
module FrameGateSlots {
  import opened Modular
  import opened FrameGate
  import opened Frames
  import opened FrameGateRuns
  import opened FrameGateTheorems

  /** Some run from the reset state g leads to v. */
  ghost predicate Reaches(g: Gate, v: View)
    requires Initial(g)
  {
    exists run :: FromReset(g, run) == v
  }

  lemma ReachesStep(g: Gate, v: View, i: Inputs)
    requires Initial(g) && Reaches(g, v)
    ensures Shape(v.gate) && Reaches(g, Step(v, i))
  {
    var run :| FromReset(g, run) == v;
    assert (run + [i])[..|run|] == run;
    assert FromReset(g, run + [i]) == Step(v, i);
  }

  lemma ReachesStart(g: Gate)
    requires Initial(g)
    ensures Reaches(g, View(g, [], [], 0, 0))
  {
    assert FromReset(g, []) == View(g, [], [], 0, 0);
  }

  /** A gate just reset, of any configuration. */
  function Reset(cfg: Config): (g: Gate)
    requires cfg.Legal()
    ensures Initial(g) && g.cfg == cfg
  {
    var zero := Beat(0, false, false, false);
    Gate(cfg, Fill(false, 0, 0, false, 0, 0, 0),
         Drain(false, 0, 0, 0, false, zero, false, zero, 0, 0, Stats(0, 0, 0, 0, 0, 0, 0, 0, 0, 0, 0)),
         0, seq(cfg.slots, k => 0), seq(cfg.slots, k => seq(cfg.depth, j => zero)))
  }

  // ---- Writing into a full slot ----

  /** In every run no edge writes a slot that holds a complete frame. */
  ghost predicate NeverOverwrites(cfg: Config)
    requires cfg.Legal()
  {
    forall g, run, i :: Initial(g) && g.cfg == cfg ==> SparesFullSlots(FromReset(g, run).gate, i)
  }

  /** Frames of one beat that nobody takes. */
  const SHORT := Inputs(true, Beat(0, true, false, false), false)

  /** n short frames in the slots, none out. */
  predicate Stacked(h: Gate, n: nat) {
    && Shape(h) && h.cfg.slots > 16 && n <= 16
    && !h.fill.drop && !h.fill.bad && h.fill.wrPtr == 0 && h.fill.slot == (if n == 16 then 0 else n)
    && h.fullCount == n && h.drain.slot == 0
  }

  lemma StackOne(v: View, n: nat)
    requires Stacked(v.gate, n) && n < 16
    ensures Stacked(Step(v, SHORT).gate, n + 1) && Step(v, SHORT).gate.cfg == v.gate.cfg
  {
    EdgeShape(v.gate, SHORT);
  }

  lemma {:induction false} StackAll(g: Gate, n: nat) returns (v: View)
    requires Initial(g) && g.cfg.slots > 16 && n <= 16
    ensures Reaches(g, v) && Stacked(v.gate, n) && v.gate.cfg == g.cfg
  {
    if n == 0 {
      v := View(g, [], [], 0, 0);
      ReachesStart(g);
    } else {
      var w := StackAll(g, n - 1);
      StackOne(w, n - 1);
      ReachesStep(g, w, SHORT);
      v := Step(w, SHORT);
    }
  }

  /** After 16 short frames the next beat goes into the slot of the oldest. */
  lemma OverwritesOldest(cfg: Config)
    requires cfg.Legal() && cfg.slots > 16
    ensures exists run :: var h := FromReset(Reset(cfg), run).gate;
              h.fullCount == 16 && h.fill.slot == h.drain.slot && RamWrite(h, SHORT) && !SparesFullSlots(h, SHORT)
  {
    var v := StackAll(Reset(cfg), 16);
    var run :| FromReset(Reset(cfg), run) == v;
    assert Add(v.gate.drain.slot, 0, v.gate.cfg.slots) == v.gate.fill.slot;
  }

  /** No write reaches a slot that holds a complete frame, exactly if there are at most 16 slots. */
  lemma SlotSafetyIff(cfg: Config)
    requires cfg.Legal()
    ensures NeverOverwrites(cfg) <==> cfg.slots <= 16
  {
    if cfg.slots <= 16 {
      forall g, run, i | Initial(g) && g.cfg == cfg ensures SparesFullSlots(FromReset(g, run).gate, i) {
        SlotSafety(g, run, i);
      }
    } else {
      OverwritesOldest(cfg);
    }
  }

  // ---- Sending the wrong frame ----

  /** In every run the output is a prefix of what is to be forwarded. */
  ghost predicate AlwaysForwards(cfg: Config)
    requires cfg.Legal()
  {
    forall g, run :: Initial(g) && g.cfg == cfg ==>
      FromReset(g, run).outs <= Concat(Kept(FromReset(g, run).inp, cfg.depth))
  }

  function Opening(data: nat): Beat {
    Beat(data, false, false, false)
  }

  function Closing(data: nat): Beat {
    Beat(data, true, false, false)
  }

  /** A beat that comes in while the sink is not ready. */
  function Arrives(b: Beat): Inputs {
    Inputs(true, b, false)
  }

  const IDLE := Inputs(false, Beat(0, false, false, false), false)
  const TAKE := Inputs(false, Beat(0, false, false, false), true)

  /** The frame Opening(0), Closing(0) is the first of those to forward. */
  predicate Begun(v: View) {
    && Local(v) && v.gate.cfg.slots > 16 && v.gate.cfg.depth >= 2
    && Kept(v.inp, v.gate.cfg.depth) != []
    && Kept(v.inp, v.gate.cfg.depth)[0] == [Opening(0), Closing(0)]
  }

  /** Its first beat is on offer and nobody takes it. */
  predicate Offered(d: Drain) {
    d.active && d.slot == 0 && d.len == 2 && d.rdCount == 1 && !d.pending && d.valid && d.out == Opening(0)
  }

  predicate Filling(f: Fill, n: nat, at: nat) {
    !f.drop && !f.bad && f.wrPtr == at && f.slot == if n >= 16 then n - 16 else n
  }

  /** n frames are in the slots, the first of them on offer, and `at` beats of the next have come in. */
  predicate Held(v: View, n: nat, at: nat) {
    && Begun(v) && n <= 17 && v.gate.fullCount == n && v.outs == []
    && Offered(v.gate.drain) && Filling(v.gate.fill, n, at)
  }

  lemma BeginOn(v: View, i: Inputs)
    requires Begun(v)
    ensures Begun(Step(v, i)) && Step(v, i).gate.cfg == v.gate.cfg
  {
    StepLocal(v, i);
  }

  lemma FirstBeat(v: View, n: nat, data: nat)
    requires Held(v, n, 0) && n <= 16
    ensures Held(Step(v, Arrives(Opening(data))), n, 1)
    ensures Step(v, Arrives(Opening(data))).gate.cfg == v.gate.cfg
  {
    BeginOn(v, Arrives(Opening(data)));
    ModUnique(1, 0, 1, v.gate.cfg.depth);
  }

  lemma FinalBeat(v: View, n: nat, data: nat)
    requires Held(v, n, 1) && n <= 16
    ensures var w := Step(v, Arrives(Closing(data)));
            && Held(w, n + 1, 0) && w.gate.cfg == v.gate.cfg
            && w.gate.mem[if n == 16 then 0 else n][1] == Closing(data)
  {
    BeginOn(v, Arrives(Closing(data)));
  }

  lemma FrameIn(g: Gate, v: View, n: nat, data: nat) returns (w: View)
    requires Initial(g) && Reaches(g, v) && Held(v, n, 0) && n <= 16
    ensures Reaches(g, w) && Held(w, n + 1, 0) && w.gate.cfg == v.gate.cfg
    ensures w.gate.mem[if n == 16 then 0 else n][1] == Closing(data)
  {
    FirstBeat(v, n, data);
    ReachesStep(g, v, Arrives(Opening(data)));
    var u := Step(v, Arrives(Opening(data)));
    FinalBeat(u, n, data);
    ReachesStep(g, u, Arrives(Closing(data)));
    w := Step(u, Arrives(Closing(data)));
  }

  /** The drain has not started. */
  predicate Resting(d: Drain) {
    !d.active && !d.valid && d.slot == 0
  }

  /** The first beat of all is in, and nothing else. */
  predicate HalfIn(v: View) {
    && Local(v) && v.gate.cfg.slots > 16 && v.gate.cfg.depth >= 2 && v.outs == []
    && Kept(v.inp, v.gate.cfg.depth) == [] && Split(v.inp).part == [Opening(0)]
    && Filling(v.gate.fill, 0, 1) && v.gate.fullCount == 0 && Resting(v.gate.drain)
  }

  lemma FirstHalf(g: Gate)
    requires Initial(g) && g.cfg.slots > 16 && g.cfg.depth >= 2
    ensures var v := Step(View(g, [], [], 0, 0), Arrives(Opening(0)));
            HalfIn(v) && v.gate.cfg == g.cfg && v.gate.mem[0][0] == Opening(0)
  {
    var v := View(g, [], [], 0, 0);
    StepLocal(v, Arrives(Opening(0)));
    SplitStep(v, Arrives(Opening(0)));
    ModUnique(1, 0, 1, g.cfg.depth);
  }

  /** The first frame is in its slot. */
  predicate OneIn(v: View) {
    && Begun(v) && v.outs == [] && v.gate.fullCount == 1 && Filling(v.gate.fill, 1, 0) && v.gate.drain.slot == 0
    && v.gate.slotLen[0] == 2 && v.gate.mem[0][0] == Opening(0)
  }

  lemma SecondHalf(v: View)
    requires HalfIn(v) && v.gate.mem[0][0] == Opening(0)
    ensures var w := Step(v, Arrives(Closing(0)));
            OneIn(w) && w.gate.cfg == v.gate.cfg && Resting(w.gate.drain)
  {
    StepLocal(v, Arrives(Closing(0)));
    assert Commit(v.gate, Arrives(Closing(0)));
  }

  lemma IdleEdge(v: View)
    requires OneIn(v)
    ensures var w := Step(v, IDLE);
            && Begun(w) && w.gate.cfg == v.gate.cfg && w.gate.fill == v.gate.fill
            && w.gate.mem == v.gate.mem && w.gate.slotLen == v.gate.slotLen && w.gate.fullCount == 1
            && w.inp == v.inp && w.outs == [] && w.gate.drain == DrainEdge(v.gate, IDLE)
  {
    BeginOn(v, IDLE);
  }

  lemma DrainOpens(v: View)
    requires OneIn(v) && Resting(v.gate.drain)
    ensures var d := DrainEdge(v.gate, IDLE);
            d.active && d.slot == 0 && d.len == 2 && d.rdCount == 0 && !d.pending && !d.valid
  {
  }

  lemma DrainReads(v: View)
    requires OneIn(v)
    requires var d := v.gate.drain; d.active && d.len == 2 && d.rdCount == 0 && !d.pending && !d.valid
    ensures var d := DrainEdge(v.gate, IDLE);
            && d.active && d.slot == 0 && d.len == 2 && d.rdCount == 1 && d.pending && !d.valid
            && d.ramOut == Opening(0)
  {
    ModUnique(0, 0, 0, v.gate.cfg.depth);
    ModUnique(1, 0, 1, 2 * v.gate.cfg.depth);
  }

  lemma DrainOffers(v: View)
    requires OneIn(v)
    requires var d := v.gate.drain;
             d.active && d.len == 2 && d.rdCount == 1 && d.pending && !d.valid && d.ramOut == Opening(0)
    ensures Offered(DrainEdge(v.gate, IDLE))
  {
  }

  /** The first frame comes in, and three edges later its first beat is on offer. */
  lemma FirstOffer(g: Gate) returns (v: View)
    requires Initial(g) && g.cfg.slots > 16 && g.cfg.depth >= 2
    ensures Reaches(g, v) && v.gate.cfg == g.cfg && Held(v, 1, 0)
  {
    ReachesStart(g);
    v := View(g, [], [], 0, 0);
    FirstHalf(g);
    ReachesStep(g, v, Arrives(Opening(0)));
    v := Step(v, Arrives(Opening(0)));
    SecondHalf(v);
    ReachesStep(g, v, Arrives(Closing(0)));
    v := Step(v, Arrives(Closing(0)));
    DrainOpens(v);
    v := IdleOn(g, v);
    DrainReads(v);
    v := IdleOn(g, v);
    DrainOffers(v);
    v := IdleOn(g, v);
  }

  lemma IdleOn(g: Gate, v: View) returns (w: View)
    requires Initial(g) && Reaches(g, v) && OneIn(v)
    requires DrainEdge(v.gate, IDLE).slot == 0
    ensures Reaches(g, w) && OneIn(w) && w.gate.cfg == v.gate.cfg && w.gate.drain == DrainEdge(v.gate, IDLE)
  {
    IdleEdge(v);
    ReachesStep(g, v, IDLE);
    w := Step(v, IDLE);
  }

  lemma {:induction false} SixteenHeld(g: Gate, n: nat) returns (v: View)
    requires Initial(g) && g.cfg.slots > 16 && g.cfg.depth >= 2 && 1 <= n <= 16
    ensures Reaches(g, v) && v.gate.cfg == g.cfg && Held(v, n, 0)
  {
    if n == 1 {
      v := FirstOffer(g);
    } else {
      var w := SixteenHeld(g, n - 1);
      v := FrameIn(g, w, n - 1, 0);
    }
  }

  /** A ready edge with no input, while slot 0 holds Closing(1) behind its first beat. */
  predicate Taking(v: View) {
    Begun(v) && v.gate.fullCount == 17 && !v.gate.fill.drop && v.gate.mem[0][1] == Closing(1)
  }

  lemma TakeEdge(v: View)
    requires Taking(v) && !FinishDrain(v.gate, TAKE)
    ensures var w := Step(v, TAKE);
            && Taking(w) && w.gate.cfg == v.gate.cfg && w.gate.drain == DrainEdge(v.gate, TAKE)
            && w.outs == if v.gate.drain.valid then v.outs + [v.gate.drain.out] else v.outs
  {
    BeginOn(v, TAKE);
  }

  lemma ReadsNext(v: View)
    requires Taking(v) && Offered(v.gate.drain)
    ensures var d := DrainEdge(v.gate, TAKE);
            d.active && d.slot == 0 && d.pending && !d.valid && d.ramOut == Closing(1)
  {
    ModUnique(1, 0, 1, v.gate.cfg.depth);
  }

  lemma TakeOn(g: Gate, v: View) returns (w: View)
    requires Initial(g) && Reaches(g, v) && Taking(v) && !FinishDrain(v.gate, TAKE)
    ensures Reaches(g, w) && Taking(w) && w.gate.cfg == v.gate.cfg && w.gate.drain == DrainEdge(v.gate, TAKE)
    ensures w.outs == if v.gate.drain.valid then v.outs + [v.gate.drain.out] else v.outs
  {
    TakeEdge(v);
    ReachesStep(g, v, TAKE);
    w := Step(v, TAKE);
  }

  lemma LastTake(v: View)
    requires Begun(v) && v.outs == [Opening(0)] && v.gate.drain.valid && v.gate.drain.out == Closing(1)
    ensures Begun(Step(v, TAKE)) && Step(v, TAKE).outs == [Opening(0), Closing(1)]
    ensures Step(v, TAKE).gate.cfg == v.gate.cfg
  {
    BeginOn(v, TAKE);
  }

  /** Three ready edges: the first beat goes out, then whatever slot 0 holds behind it. */
  lemma TakesTwo(g: Gate, v: View) returns (w: View)
    requires Initial(g) && Reaches(g, v) && Held(v, 17, 0) && v.gate.mem[0][1] == Closing(1)
    ensures Reaches(g, w) && w.gate.cfg == v.gate.cfg && Begun(w) && w.outs == [Opening(0), Closing(1)]
  {
    ReadsNext(v);
    var v1 := TakeOn(g, v);
    var v2 := TakeOn(g, v1);
    LastTake(v2);
    ReachesStep(g, v2, TAKE);
    w := Step(v2, TAKE);
  }

  lemma HeadOfConcat(fs: seq<seq<Beat>>)
    requires fs != []
    ensures fs[0] <= Concat(fs)
  {
    ConcatPrefix(fs, 1);
    assert fs[..1][..0] == [] && Concat(fs[..1]) == fs[0];
  }

  /** The frame that was to be first goes out with the last beat of the seventeenth. */
  lemma SendsWrongBeat(cfg: Config)
    requires cfg.Legal() && cfg.slots > 16 && cfg.depth >= 2
    ensures exists run :: var v := FromReset(Reset(cfg), run);
              v.outs == [Opening(0), Closing(1)] && [Opening(0), Closing(0)] <= Concat(Kept(v.inp, cfg.depth))
  {
    var g := Reset(cfg);
    var v16 := SixteenHeld(g, 16);
    var v17 := FrameIn(g, v16, 16, 1);
    var v := TakesTwo(g, v17);
    HeadOfConcat(Kept(v.inp, cfg.depth));
    var run :| FromReset(g, run) == v;
  }

  /** The gate forwards the right beats in every run exactly if there are at most 16 slots. */
  lemma RefinementIff(cfg: Config)
    requires cfg.Legal() && cfg.depth >= 2
    ensures AlwaysForwards(cfg) <==> cfg.slots <= 16
  {
    if cfg.slots <= 16 {
      forall g, run | Initial(g) && g.cfg == cfg
        ensures FromReset(g, run).outs <= Concat(Kept(FromReset(g, run).inp, cfg.depth))
      {
        Refinement(g, run);
      }
    } else {
      SendsWrongBeat(cfg);
      var run :| var v := FromReset(Reset(cfg), run);
        v.outs == [Opening(0), Closing(1)] && [Opening(0), Closing(0)] <= Concat(Kept(v.inp, cfg.depth));
      var v := FromReset(Reset(cfg), run);
      assert v.outs[1] != Concat(Kept(v.inp, cfg.depth))[1];
    }
  }
}
