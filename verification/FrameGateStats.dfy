/** The drain statistics told from the run alone: the edges each frame was under way, and how many of them it waited. */
module FrameGateStats {
  import opened Modular
  import opened FrameGate
  import opened Frames
  import opened FrameGateProofs
  import opened FrameGateRuns
  import opened FrameGateTheorems

  /** One frame under way: the draining edges, and those at which a beat was offered and not taken. */
  datatype Span = Span(edges: nat, stalls: nat) {
    /** As the 32-bit registers hold them. */
    function Edges(): nat {
      edges % WORD
    }

    function Stalls(): nat {
      stalls % WORD
    }
  }

  /** The frames that have left, and the one under way. */
  datatype Log = Log(spans: seq<Span>, open: Span)

  const NOTHING := Log([], Span(0, 0))

  function Logged(l: Log, g: Gate, i: Inputs): Log {
    if !g.drain.active then Log(l.spans, Span(0, 0))
    else
      var s := Span(l.open.edges + 1, l.open.stalls + Bit(Stalled(g, i)));
      if FinishDrain(g, i) then Log(l.spans + [s], Span(0, 0)) else Log(l.spans, s)
  }

  function LogOf(v: View, run: seq<Inputs>): Log
    requires Shape(v.gate)
  {
    if run == [] then NOTHING
    else Logged(LogOf(v, run[..|run| - 1]), After(v, run[..|run| - 1]).gate, run[|run| - 1])
  }

  /** How many frames took a number of cycles from lo on and below hi. */
  function Within(spans: seq<Span>, lo: nat, hi: nat): nat {
    if spans == [] then 0
    else
      var e := spans[|spans| - 1].Edges();
      Within(spans[..|spans| - 1], lo, hi) + if lo <= e < hi then 1 else 0
  }

  function Sum(spans: seq<Span>): nat {
    if spans == [] then 0 else Sum(spans[..|spans| - 1]) + spans[|spans| - 1].edges
  }

  function Waits(spans: seq<Span>): nat {
    if spans == [] then 0 else Waits(spans[..|spans| - 1]) + spans[|spans| - 1].stalls
  }

  /** m is the greatest number of cycles of a frame, or zero before the first frame. */
  predicate Longest(m: nat, spans: seq<Span>) {
    && (forall k :: 0 <= k < |spans| ==> spans[k].Edges() <= m)
    && (m == 0 || exists k :: 0 <= k < |spans| && spans[k].Edges() == m)
  }

  predicate LongestWait(m: nat, spans: seq<Span>) {
    && (forall k :: 0 <= k < |spans| ==> spans[k].Stalls() <= m)
    && (m == 0 || exists k :: 0 <= k < |spans| && spans[k].Stalls() == m)
  }

  /** The thresholds of the histogram: 50, 100, 200 and 500 microseconds at 100 MHz. */
  predicate Histogram(s: Stats, spans: seq<Span>) {
    && s.lt50 == Within(spans, 0, 5000) % WORD
    && s.lt100 == Within(spans, 5000, 10000) % WORD
    && s.lt200 == Within(spans, 10000, 20000) % WORD
    && s.lt500 == Within(spans, 20000, 50000) % WORD
    && s.ge500 == Within(spans, 50000, WORD) % WORD
  }

  predicate Told(s: Stats, spans: seq<Span>) {
    && s.samples == |spans| % WORD && s.total == Sum(spans) % WORD
    && Longest(s.max, spans) && LongestWait(s.lowMax, spans) && Histogram(s, spans)
  }

  lemma WithinMore(spans: seq<Span>, x: Span, lo: nat, hi: nat)
    ensures Within(spans + [x], lo, hi) == Within(spans, lo, hi) + if lo <= x.Edges() < hi then 1 else 0
  {
  }

  lemma OneMore(n: nat, hit: bool)
    ensures (n + if hit then 1 else 0) % WORD == if hit then Count(n % WORD, 1) else n % WORD
  {
    CountMod(n, 1);
  }

  lemma HistogramMore(d: Drain, spans: seq<Span>, x: Span)
    requires Histogram(d.stats, spans) && Count(d.cycles, 1) == x.Edges()
    ensures Histogram(Sample(d), spans + [x])
  {
    var e := x.Edges();
    WithinMore(spans, x, 0, 5000);
    WithinMore(spans, x, 5000, 10000);
    WithinMore(spans, x, 10000, 20000);
    WithinMore(spans, x, 20000, 50000);
    WithinMore(spans, x, 50000, WORD);
    OneMore(Within(spans, 0, 5000), 0 <= e < 5000);
    OneMore(Within(spans, 5000, 10000), 5000 <= e < 10000);
    OneMore(Within(spans, 10000, 20000), 10000 <= e < 20000);
    OneMore(Within(spans, 20000, 50000), 20000 <= e < 50000);
    OneMore(Within(spans, 50000, WORD), 50000 <= e < WORD);
  }

  lemma LongestMore(m: nat, spans: seq<Span>, x: Span)
    requires Longest(m, spans)
    ensures Longest(if x.Edges() > m then x.Edges() else m, spans + [x])
  {
    assert (spans + [x])[|spans|] == x;
    if m > 0 {
      var k :| 0 <= k < |spans| && spans[k].Edges() == m;
      assert (spans + [x])[k].Edges() == m;
    }
  }

  lemma LongestWaitMore(m: nat, spans: seq<Span>, x: Span)
    requires LongestWait(m, spans)
    ensures LongestWait(if x.Stalls() > m then x.Stalls() else m, spans + [x])
  {
    assert (spans + [x])[|spans|] == x;
    if m > 0 {
      var k :| 0 <= k < |spans| && spans[k].Stalls() == m;
      assert (spans + [x])[k].Stalls() == m;
    }
  }

  lemma SumMore(spans: seq<Span>, x: Span)
    ensures Sum(spans + [x]) == Sum(spans) + x.edges && Waits(spans + [x]) == Waits(spans) + x.stalls
  {
  }

  /** One sample more, one span more. */
  lemma ToldMore(d: Drain, spans: seq<Span>, x: Span)
    requires Told(d.stats, spans) && Count(d.cycles, 1) == x.Edges() && d.low == x.Stalls()
    ensures Told(Sample(d), spans + [x])
  {
    HistogramMore(d, spans, x);
    LongestMore(d.stats.max, spans, x);
    LongestWaitMore(d.stats.lowMax, spans, x);
    SumMore(spans, x);
    CountMod(|spans|, 1);
    TotalMore(d.stats.total, Sum(spans), d.cycles, x.edges);
  }

  lemma TotalMore(total: nat, sum: nat, cycles: nat, edges: nat)
    requires total == sum % WORD && Count(cycles, 1) == edges % WORD
    ensures Count(total, cycles + 1) == (sum + edges) % WORD
  {
    CountMod(sum, cycles + 1);
    CountMod(cycles + 1, sum);
    CountMod(edges, sum);
  }

  /** The registers of the drain against the log. */
  predicate Follows(g: Gate, l: Log, stalls: nat) {
    var d := g.drain;
    && Counted(d, l.open)
    && stalls == Waits(l.spans) + l.open.stalls
    && d.stats.low == d.stats.lowSamples == stalls % WORD
    && Told(d.stats, l.spans)
  }

  /** The counters of the frame under way. */
  predicate Counted(d: Drain, open: Span) {
    if d.active then d.cycles == open.Edges() && d.low == open.Stalls() else open == Span(0, 0)
  }

  lemma FollowsFinish(g: Gate, i: Inputs, l: Log, stalls: nat)
    requires Shape(g) && Follows(g, l, stalls) && g.drain.active && FinishDrain(g, i)
    ensures Follows(Edge(g, i), Logged(l, g, i), stalls)
  {
    var s := Span(l.open.edges + 1, l.open.stalls);
    CountMod(l.open.edges, 1);
    ToldMore(g.drain, l.spans, s);
    SumMore(l.spans, s);
    assert Logged(l, g, i).spans == l.spans + [s];
  }

  lemma FollowsRest(g: Gate, i: Inputs, l: Log, stalls: nat)
    requires Shape(g) && Follows(g, l, stalls) && !g.drain.active
    ensures Follows(Edge(g, i), Logged(l, g, i), stalls)
  {
  }

  lemma FollowsWork(g: Gate, i: Inputs, l: Log, stalls: nat)
    requires Shape(g) && Follows(g, l, stalls) && g.drain.active && !FinishDrain(g, i)
    ensures Follows(Edge(g, i), Logged(l, g, i), stalls + Bit(Stalled(g, i)))
  {
    CountMod(l.open.edges, 1);
    CountMod(l.open.stalls, 1);
    CountMod(stalls, 1);
    StatsEdge(g, i);
    assert Told(Edge(g, i).drain.stats, l.spans);
    assert Counted(Edge(g, i).drain, Logged(l, g, i).open);
  }

  lemma FollowsStep(g: Gate, i: Inputs, l: Log, stalls: nat)
    requires Shape(g) && Piped(g.drain) && Follows(g, l, stalls)
    ensures Follows(Edge(g, i), Logged(l, g, i), stalls + Bit(Stalled(g, i)))
  {
    if !g.drain.active {
      FollowsRest(g, i, l, stalls);
    } else if FinishDrain(g, i) {
      FollowsFinish(g, i, l, stalls);
    } else {
      FollowsWork(g, i, l, stalls);
    }
  }

  /** The log is that of the run up to v. */
  predicate LogKept(v: View, l: Log) {
    Follows(v.gate, l, v.stalls)
  }

  lemma LogKeptStep(v: View, i: Inputs, l: Log)
    requires Shape(v.gate) && Piped(v.gate.drain) && LogKept(v, l)
    ensures LogKept(Step(v, i), Logged(l, v.gate, i))
  {
    FollowsStep(v.gate, i, l, v.stalls);
  }

  ghost predicate AlwaysPiped(v: View)
    requires Shape(v.gate)
  {
    forall run :: Piped(After(v, run).gate.drain)
  }

  lemma LocalPiped(v: View)
    requires Local(v)
    ensures AlwaysPiped(v)
  {
    forall run ensures Piped(After(v, run).gate.drain) {
      AfterLocal(v, run);
    }
  }

  /** The log of a run that is one step longer. */
  lemma OneEdge(v: View, run: seq<Inputs>, w: View, l: Log)
    requires Shape(v.gate) && run != [] && Piped(w.gate.drain)
    requires w == After(v, run[..|run| - 1]) && l == LogOf(v, run[..|run| - 1]) && LogKept(w, l)
    ensures LogKept(After(v, run), LogOf(v, run))
  {
    LogKeptStep(w, run[|run| - 1], l);
  }

  lemma {:induction false} FollowsRun(v: View, run: seq<Inputs>)
    requires Shape(v.gate) && AlwaysPiped(v) && LogKept(v, NOTHING)
    ensures LogKept(After(v, run), LogOf(v, run))
  {
    if run == [] {
    } else {
      FollowsRun(v, run[..|run| - 1]);
      OneEdge(v, run, After(v, run[..|run| - 1]), LogOf(v, run[..|run| - 1]));
    }
  }

  predicate StatsTold(v: View, l: Log) {
    var s := v.gate.drain.stats;
    Told(s, l.spans) && s.low == s.lowSamples == (Waits(l.spans) + l.open.stalls) % WORD
  }

  lemma LogTells(v: View, l: Log)
    requires LogKept(v, l)
    ensures StatsTold(v, l)
  {
  }

  lemma InitialFollows(v: View)
    requires Initial(v.gate) && v == View(v.gate, [], [], 0, 0)
    ensures Local(v) && LogKept(v, NOTHING)
  {
  }

  /**
   After any run the statistics registers say of the frames that have left: how many they were, how many
   cycles they took in all, the most cycles and the most waiting cycles of one, and how many fall between
   which thresholds; the two counters of waiting cycles count those of the frame under way as well.
   */
  lemma StatsTell(g: Gate, run: seq<Inputs>)
    requires Initial(g)
    ensures StatsTold(FromReset(g, run), LogOf(View(g, [], [], 0, 0), run))
  {
    var v := View(g, [], [], 0, 0);
    InitialFollows(v);
    LocalPiped(v);
    FollowsRun(v, run);
    LogTells(After(v, run), LogOf(v, run));
  }

  // ---- What a frame costs ----

  /** Each frame that has left took two cycles a beat, one to begin with and its own waits. */
  predicate Priced(spans: seq<Span>, sent: seq<seq<Beat>>) {
    |spans| == |sent| && forall k :: 0 <= k < |sent| ==> spans[k].edges == 2 * |sent[k]| + 1 + spans[k].stalls
  }

  predicate Costs(v: View, l: Log) {
    var k, c := Kept(v.inp, v.gate.cfg.depth), v.gate.fullCount;
    && c <= |k| && Priced(l.spans, First(k, c))
    && (v.gate.drain.active ==> l.open.edges == Work(v.gate.drain) + l.open.stalls)
    && (!v.gate.drain.active ==> l.open == Span(0, 0))
  }

  lemma PricedMore(spans: seq<Span>, sent: seq<seq<Beat>>, x: Span, f: seq<Beat>)
    requires Priced(spans, sent) && x.edges == 2 * |f| + 1 + x.stalls
    ensures Priced(spans + [x], sent + [f])
  {
  }

  /** The frame under way, one edge on. */
  lemma OpenStep(g: Gate, i: Inputs, l: Log, queue: seq<seq<Beat>>)
    requires Shape(g) && HeadHeld(g, queue)
    requires if g.drain.active then queue != [] && DrainOk(g.drain, queue[0]) else Idle(g.drain)
    requires g.drain.active ==> l.open.edges == Work(g.drain) + l.open.stalls
    requires !g.drain.active ==> l.open == Span(0, 0)
    ensures var m := Logged(l, g, i);
            && (Edge(g, i).drain.active ==> m.open.edges == Work(Edge(g, i).drain) + m.open.stalls)
            && (!Edge(g, i).drain.active ==> m.open == Span(0, 0))
            && if Finishing(g, i) then
                 queue != [] && |m.spans| == |l.spans| + 1 && m.spans[..|l.spans|] == l.spans
                 && m.spans[|l.spans|].edges == 2 * |queue[0]| + 1 + m.spans[|l.spans|].stalls
               else m.spans == l.spans
  {
    if !g.drain.active && g.fullCount == 0 {
      DrainRests(g, i);
    } else if !g.drain.active {
      DrainStarts(g, i, queue[0]);
    } else if Finishing(g, i) {
      DrainFinishes(g, i, queue[0]);
    } else {
      DrainRuns(g, i, queue[0]);
    }
  }

  lemma CostsStep(v: View, i: Inputs, l: Log)
    requires Inv(v) && Costs(v, l)
    ensures Costs(Step(v, i), Logged(l, v.gate, i))
  {
    var p, k, c := Split(v.inp), Kept(v.inp, v.gate.cfg.depth), v.gate.fullCount;
    var sent, queue := First(k, c), Last(k, c);
    KeptAreFrames(v.inp, v.gate.cfg.depth);
    StepInv(v, i);
    StepParsed(v, i, k, c, p);
    StoreHead(v.gate, p.part, queue);
    OpenStep(v.gate, i, l, queue);
    var m := Logged(l, v.gate, i);
    if Finishing(v.gate, i) {
      PricedMore(l.spans, sent, m.spans[|l.spans|], queue[0]);
      assert m.spans == l.spans + [m.spans[|l.spans|]];
    }
  }

  lemma {:induction false} CostsRun(v: View, run: seq<Inputs>)
    requires Inv(v) && Costs(v, NOTHING)
    ensures Inv(After(v, run)) && Costs(After(v, run), LogOf(v, run))
  {
    AfterInv(v, run);
    if run == [] {
    } else {
      var n := |run| - 1;
      CostsRun(v, run[..n]);
      CostsStep(After(v, run[..n]), run[n], LogOf(v, run[..n]));
    }
  }

  /**
   Frame by frame: the frames that have left are the first of those to forward, and each took exactly two
   cycles a beat and one more, and the cycles it waited. So the statistics are those of these numbers.
   */
  lemma SpanCost(g: Gate, run: seq<Inputs>)
    requires Initial(g) && g.cfg.Addressed()
    ensures var v, l := FromReset(g, run), LogOf(View(g, [], [], 0, 0), run);
            var k, c := Kept(v.inp, g.cfg.depth), v.gate.fullCount;
            c <= |k| && Priced(l.spans, First(k, c))
  {
    InitialInv(g);
    Reachable(g, run);
    CostsRun(View(g, [], [], 0, 0), run);
  }
}
