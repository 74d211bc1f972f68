/** The order in which buffers pass through the ring and the two FIFOs, whatever the interleaving. */
module RxOrder {
  import opened RxRing
  import opened RxRingProofs
  import opened RxSystem
  import opened RxRuns

  /**
   The buffers posted and taken since the last rebuild of the ring, those put into the ready FIFO and
   fetched from it, and those put into the free FIFO and got from it, in the order in which it happened.
   */
  datatype Journal = Journal(posted: seq<Buf>, taken: seq<Buf>, readied: seq<Buf>, fetched: seq<Buf>,
                             freed: seq<Buf>, gotten: seq<Buf>)

  const EMPTY := Journal([], [], [], [], [], [])

  /** What the change of one thread says. */
  function Moved(j: Journal, x: Thread, y: Thread): Journal {
    match x
    case Holding(rx, _) => if y.Posted? then j.(posted := j.posted + [rx]) else j
    case Idle =>
      if y.Taken? then j.(taken := j.taken + [y.rx])
      else if y.Fetched? then j.(fetched := j.fetched + [y.rx])
      else j
    case Readying(rx) => j.(readied := j.readied + [rx])
    case PuttingBack(rx, _) => j.(freed := j.freed + [rx])
    case Returning(rx) => j.(freed := j.freed + [rx])
    case Getting(_) => if y.Holding? then j.(gotten := j.gotten + [y.rx]) else j
    case _ => j
  }

  /** A rebuild starts a new ring; the orphans it collects are put back one by one. */
  function Recovering(j: Journal, r: Recovery): Journal {
    match r
    case Stopped => j.(posted := [], taken := [])
    case Putting(orphans) => if orphans == [] then j else j.(freed := j.freed + [orphans[0]])
    case _ => j
  }

  function Noted(j: Journal, s: System, a: Action, s': System): Journal
    requires |s'.threads| == |s.threads|
  {
    match a
    case Act(t, _) => if t < |s.threads| then Moved(j, s.threads[t], s'.threads[t]) else j
    case Recover => Recovering(j, s.recovery)
    case _ => j
  }

  lemma StepThreads(s: System, a: Action)
    requires Live(s)
    ensures |Step(s, a).threads| == |s.threads|
  {
    if a.Act? && a.thread < |s.threads| {
      AdvanceLocal(s, a.thread, a.choice);
    }
  }

  /** The journal of a run. */
  function JournalOf(s: System, acts: seq<Action>): Journal
    requires Live(s)
  {
    if acts == [] then EMPTY
    else
      var n := |acts| - 1;
      var u := Run(s, acts[..n]);
      StepThreads(u, acts[n]);
      Noted(JournalOf(s, acts[..n]), u, acts[n], Step(u, acts[n]))
  }

  /** What went in came out in the same order, but for what is still inside; pool is the free FIFO at the start. */
  ghost predicate Ordered(j: Journal, s: System, pool: seq<Buf>) {
    && Inv(s.core)
    && j.posted == j.taken + Queue(s.core)
    && j.readied == j.fetched + s.ready
    && pool + j.freed == j.gotten + s.free
  }

  lemma QueueSame(c: Core, d: Core)
    requires c.Shape() && d.Shape() && Window(c) && Window(d)
    requires c.ring.owner == d.ring.owner && c.ring.consume == d.ring.consume && c.ring.posted == d.ring.posted
    ensures Queue(d) == Queue(c)
  {
  }

  lemma Grow(xs: seq<Buf>, ys: seq<Buf>, b: Buf)
    ensures xs + ys + [b] == xs + (ys + [b])
    ensures ys != [] ==> xs + ys == xs + [ys[0]] + ys[1..]
  {
  }

  lemma PollOrdered(j: Journal, s: System, t: nat, pool: seq<Buf>)
    requires Safe(s) && t < |s.threads| && s.threads[t].Idle? && Ordered(j, s, pool)
    ensures var s' := Begin(s, t, Poll);
            |s'.threads| == |s.threads| && Ordered(Moved(j, s.threads[t], s'.threads[t]), s', pool)
  {
    BeginSafe(s, t, Poll);
    if Consume(s.core).1.Frame? {
      ConsumeDequeues(s.core);
      Grow(j.taken, Queue(s.core), 0);
    }
  }

  lemma IdleOrdered(j: Journal, s: System, t: nat, choice: Choice, pool: seq<Buf>)
    requires Safe(s) && t < |s.threads| && s.threads[t].Idle? && Ordered(j, s, pool)
    ensures var s' := Begin(s, t, choice);
            |s'.threads| == |s.threads| && Ordered(Moved(j, s.threads[t], s'.threads[t]), s', pool)
  {
    if choice.Poll? {
      PollOrdered(j, s, t, pool);
    } else {
      Grow(j.fetched, s.ready, 0);
    }
  }

  lemma HoldingOrdered(j: Journal, s: System, t: nat, pool: seq<Buf>)
    requires Safe(s) && t < |s.threads| && s.threads[t].Holding? && Ordered(j, s, pool)
    ensures var s' := Advance(s, t, KeepOn);
            |s'.threads| == |s.threads| && Ordered(Moved(j, s.threads[t], s'.threads[t]), s', pool)
  {
    HoldingSafe(s, t);
    var rx := s.threads[t].rx;
    if PostOne(s.core, rx).1 {
      PostEnqueues(s.core, rx);
      Grow(j.taken, Queue(s.core), rx);
    }
  }

  lemma PublishingOrdered(j: Journal, s: System, t: nat, pool: seq<Buf>)
    requires Safe(s) && t < |s.threads| && s.threads[t].Publishing? && Ordered(j, s, pool)
    ensures var s' := Advance(s, t, KeepOn);
            |s'.threads| == |s.threads| && Ordered(Moved(j, s.threads[t], s'.threads[t]), s', pool)
  {
    PublishingSafe(s, t);
    QueueSame(s.core, UpdateTail(s.core));
  }

  /** The FIFO operations, and the steps on counters. */
  lemma FifoOrdered(j: Journal, s: System, t: nat, choice: Choice, pool: seq<Buf>)
    requires Safe(s) && t < |s.threads| && Ordered(j, s, pool)
    requires !s.threads[t].Idle? && !s.threads[t].Holding? && !s.threads[t].Publishing?
    ensures var s' := Advance(s, t, choice);
            |s'.threads| == |s.threads| && Ordered(Moved(j, s.threads[t], s'.threads[t]), s', pool)
  {
    AdvanceLocal(s, t, choice);
    Grow(j.gotten, s.free, 0);
    match s.threads[t]
    case Readying(rx) => Grow(j.fetched, s.ready, rx);
    case PuttingBack(rx, _) => Grow(j.gotten, s.free, rx); Grow(pool, j.freed, rx);
    case Returning(rx) => Grow(j.gotten, s.free, rx); Grow(pool, j.freed, rx);
    case _ =>
  }

  lemma ActOrdered(j: Journal, s: System, t: nat, choice: Choice, pool: seq<Buf>)
    requires Safe(s) && t < |s.threads| && Ordered(j, s, pool)
    ensures var s' := Advance(s, t, choice);
            |s'.threads| == |s.threads| && Ordered(Moved(j, s.threads[t], s'.threads[t]), s', pool)
  {
    AdvanceLocal(s, t, choice);
    match s.threads[t]
    case Idle => IdleOrdered(j, s, t, choice, pool);
    case Holding(_, _) => HoldingOrdered(j, s, t, pool);
    case Publishing => PublishingOrdered(j, s, t, pool);
    case _ => FifoOrdered(j, s, t, choice, pool);
  }

  /** Only the rebuild touches what is recorded. */
  lemma RecoverLocal(s: System)
    requires Live(s)
    ensures RecoverStep(s).ready == s.ready
    ensures !s.recovery.Putting? ==> RecoverStep(s).free == s.free
    ensures var c, d := s.core.ring, RecoverStep(s).core.ring;
            !s.recovery.Stopped? ==> d.owner == c.owner && d.consume == c.consume && d.posted == c.posted
  {
  }

  lemma RebuildOrdered(j: Journal, s: System, pool: seq<Buf>)
    requires Safe(s) && Ordered(j, s, pool) && s.recovery.Stopped?
    ensures Ordered(Recovering(j, s.recovery), RecoverStep(s), pool)
  {
    RecoverSafe(s);
    RecoverLocal(s);
    assert Queue(RecoverStep(s).core) == [];
  }

  lemma RecoverOrdered(j: Journal, s: System, pool: seq<Buf>)
    requires Safe(s) && Ordered(j, s, pool)
    ensures Ordered(Recovering(j, s.recovery), RecoverStep(s), pool)
  {
    if s.recovery.Stopped? {
      RebuildOrdered(j, s, pool);
    } else {
      RecoverSafe(s);
      RecoverLocal(s);
      QueueSame(s.core, RecoverStep(s).core);
      if s.recovery.Putting? && s.recovery.orphans != [] {
        Grow(j.gotten, s.free, s.recovery.orphans[0]);
        Grow(pool, j.freed, s.recovery.orphans[0]);
      }
    }
  }

  lemma EngineOrdered(j: Journal, s: System, a: Action, pool: seq<Buf>)
    requires Safe(s) && Ordered(j, s, pool) && (a.EngineFrame? || a.EngineReject? || a.EngineHalt?)
    ensures Ordered(j, Step(s, a), pool)
  {
    EngineSafe(s, a);
    QueueSame(s.core, Step(s, a).core);
  }

  lemma StepOrdered(j: Journal, s: System, a: Action, pool: seq<Buf>)
    requires Safe(s) && Ordered(j, s, pool)
    ensures |Step(s, a).threads| == |s.threads| && Ordered(Noted(j, s, a, Step(s, a)), Step(s, a), pool)
  {
    StepThreads(s, a);
    match a
    case Act(t, choice) => if t < |s.threads| { ActOrdered(j, s, t, choice, pool); }
    case Recover => RecoverOrdered(j, s, pool);
    case _ => EngineOrdered(j, s, a, pool);
  }

  lemma {:induction false} RunOrdered(s: System, acts: seq<Action>, pool: seq<Buf>)
    requires Safe(s) && Ordered(EMPTY, s, pool)
    ensures Ordered(JournalOf(s, acts), Run(s, acts), pool)
  {
    if acts == [] {
    } else {
      var n := |acts| - 1;
      RunOrdered(s, acts[..n], pool);
      RunSafe(s, acts[..n]);
      StepOrdered(JournalOf(s, acts[..n]), Run(s, acts[..n]), acts[n], pool);
    }
  }

  /**
   In every run the buffers leave the ring in the order in which they were posted to it, the ready
   FIFO in the order in which frames were put there, and the free FIFO in the order of the returns.
   */
  lemma OrderKept(n: nat, limit: nat, threads: nat, acts: seq<Action>)
    requires 0 < n && 0 < threads
    ensures var s, j := After(n, limit, threads, acts), JournalOf(Init(n, limit, threads), acts);
            && Inv(s.core) && j.posted == j.taken + Queue(s.core)
            && j.readied == j.fetched + s.ready
            && seq(n, i => i) + j.freed == j.gotten + s.free
  {
    InitSafe(n, limit, threads);
    RunOrdered(Init(n, limit, threads), acts, seq(n, i => i));
  }
}
