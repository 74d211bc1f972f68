/**
 Runs in which a refill opens nothing. Once every buffer has been received and released while one refiller
 posts them all, the newest slot is the one the parked engine stopped at, and its publication changes nothing.
 */
module RxParked {
  import opened Modular
  import opened Wrappers
  import opened RxRing
  import opened RxRingProofs
  import opened RxSystem
  import opened RxRuns
  import opened RxSchedules

  /** Every slot is posted and the engine, parked at the newest of them, fetches nothing. */
  ghost predicate Stalled(c: Core) {
    Parked(c) && c.ring.posted == c.N() && c.engine.tail == Some(c.ring.tail)
  }

  /** With all slots posted since it parked, the engine's tail is the ring's. */
  lemma FullParked(c: Core)
    requires Parked(c) && c.ring.posted == c.N()
    ensures Stalled(c)
  {
    assert Next(c.engine.tail.value, c.N()) == Next(c.ring.tail, c.N());
  }

  /** i buffers are posted by the worker, held up before it publishes, and the others are ready. */
  ghost predicate Round(u: Setup, s: System, i: nat) {
    && 0 < u.n <= u.l && Reached(u, s) && s.recovery.Quiet? && s.threads == [Idle, Getting(i > 0), Idle]
    && s.free == [] && |s.ready| + i == u.n && s.core.ring.posted == i && Parked(s.core)
  }

  /** Another thread drops a frame, the worker posts its buffer, and the other's refill finds nothing. */
  lemma NextRound(u: Setup, s: System, i: nat) returns (s': System)
    requires Round(u, s, i) && i < u.n
    ensures Round(u, s', i + 1)
  {
    var s1 := FrameDropped(u, s, 2);
    var s2 := PostFirst(u, s1, 1);
    ReachedSafe(u, s2);
    BesideOpen(s.core, s2.core, 0);
    s' := RefillEmpty(u, s2, 2);
    assert s'.threads == [Idle, Getting(true), Idle];
  }

  lemma {:induction false} AllRounds(u: Setup, s: System, i: nat) returns (s': System)
    requires Round(u, s, i) && i <= u.n
    ensures Round(u, s', u.n)
    decreases u.n - i
  {
    if i == u.n {
      s' := s;
    } else {
      var s1 := NextRound(u, s, i);
      s' := AllRounds(u, s1, i + 1);
    }
  }

  /** Before and after the worker's publication the ring is full and the engine fetches nothing. */
  ghost predicate StallRun(u: Setup, acts: seq<Action>)
    requires 0 < u.n
  {
    var s := After(u.n, u.l, 3, acts);
    var s' := After(u.n, u.l, 3, acts + [Act(1, KeepOn)]);
    && s.threads == [Idle, Publishing, Idle] && s.recovery.Quiet?
    && Stalled(s.core) && Stalled(s'.core) && !Fetching(s'.core)
  }

  lemma StallFrom(u: Setup, s: System)
    requires 0 < u.n && Reached(u, s) && s.threads == [Idle, Publishing, Idle] && s.recovery.Quiet?
    requires Stalled(s.core)
    ensures exists acts :: StallRun(u, acts)
  {
    var acts :| After(u.n, u.l, 3, acts) == s;
    var one := acts + [Act(1, KeepOn)];
    assert one[..|acts|] == acts;
    assert After(u.n, u.l, 3, one) == Step(s, Act(1, KeepOn));
    UpdateTailKeepsInv(s.core);
    assert StallRun(u, acts);
  }

  /** Everything received, and the worker at the start of a refill that finds nothing yet. */
  lemma Gathered(u: Setup) returns (s: System)
    requires 0 < u.n <= u.l
    ensures Round(u, s, 0)
  {
    var s0 := Boot(u);
    var s1 := AllReady(u, s0);
    s := StartRefill(u, s1, 1);
    assert s.threads == [Idle, Getting(false), Idle];
  }

  lemma AllPosted(u: Setup, s: System) returns (s': System)
    requires 0 < u.n && Round(u, s, u.n)
    ensures Reached(u, s') && s'.threads == [Idle, Publishing, Idle] && s'.recovery.Quiet? && Stalled(s'.core)
  {
    ReachedSafe(u, s);
    FullParked(s.core);
    s' := RefillEmpty(u, s, 1);
  }

  /** Such a run exists for exactly the posting limits that do not keep one slot free. */
  lemma StallReachableIff(u: Setup)
    requires 0 < u.n
    ensures (exists acts :: StallRun(u, acts)) <==> u.n <= u.l
  {
    if u.n <= u.l {
      var s0 := Gathered(u);
      var s1 := AllRounds(u, s0, 0);
      var s := AllPosted(u, s1);
      StallFrom(u, s);
    }
    forall acts | StallRun(u, acts) ensures u.n <= u.l {
      AfterSafe(u.n, u.l, 3, acts);
      SizesKept(u.n, u.l, 3, acts);
    }
  }

  /** What a thread's step can do to a ring. */
  lemma AdvanceCore(s: System, t: nat, choice: Choice)
    requires s.core.Shape() && t < |s.threads|
    ensures var c := Advance(s, t, choice).core;
            || c == s.core || c == UpdateTail(s.core) || c == Consume(s.core).0
            || (s.threads[t].Holding? && c == PostOne(s.core, s.threads[t].rx).0)
  {
  }

  lemma StalledIsFull(c: Core, rx: Buf)
    requires Stalled(c)
    ensures PostOne(c, rx).0 == c && Consume(c).0 == c
    ensures Stalled(UpdateTail(c)) && UpdateTail(c).ring == c.ring
  {
    ConsumeTakesCompletion(c);
    UpdateTailKeepsInv(c);
  }

  /** A stalled ring stays stalled whatever the threads do, until the engine is reset or halts. */
  lemma StallStays(s: System, a: Action)
    requires Live(s) && Stalled(s.core) && (a.Act? || a.EngineFrame? || a.EngineReject?)
    ensures var c := Step(s, a).core; Stalled(c) && c.ring == s.core.ring && !Fetching(c)
  {
    if a.Act? && a.thread < |s.threads| {
      AdvanceCore(s, a.thread, a.choice);
      StalledIsFull(s.core, if s.threads[a.thread].Holding? then s.threads[a.thread].rx else 0);
    }
  }
}
