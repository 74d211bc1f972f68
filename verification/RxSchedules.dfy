/**
 Building runs of the receive path: what a thread, the work queue and the engine can do from a state
 that a run reaches, several steps at a time.
 */
module RxSchedules {
  import opened BdStatus
  import opened RxRing
  import opened RxRingProofs
  import opened RxSystem
  import opened RxOwnership
  import opened RxRuns

  /** The system of n buffers and posting limit l, with three threads: work queue, worker and poller. */
  datatype Setup = Setup(n: nat, l: nat)

  /** Some run from initialisation leads to s. */
  ghost predicate Reached(u: Setup, s: System)
    requires 0 < u.n
  {
    exists acts :: After(u.n, u.l, 3, acts) == s
  }

  lemma ReachedStart(u: Setup)
    requires 0 < u.n
    ensures Reached(u, Init(u.n, u.l, 3))
  {
    assert After(u.n, u.l, 3, []) == Init(u.n, u.l, 3);
  }

  lemma ReachedSafe(u: Setup, s: System)
    requires 0 < u.n && Reached(u, s)
    ensures Safe(s) && s.core.N() == u.n && s.core.limit == u.l
  {
    var acts :| After(u.n, u.l, 3, acts) == s;
    AfterSafe(u.n, u.l, 3, acts);
    SizesKept(u.n, u.l, 3, acts);
  }

  lemma ReachedStep(u: Setup, s: System, a: Action)
    requires 0 < u.n && Reached(u, s)
    ensures Live(s) && Reached(u, Step(s, a))
  {
    var acts :| After(u.n, u.l, 3, acts) == s;
    assert (acts + [a])[..|acts|] == acts;
    assert After(u.n, u.l, 3, acts + [a]) == Step(s, a);
  }

  lemma Do(u: Setup, s: System, t: nat, choice: Choice) returns (s': System)
    requires 0 < u.n && Reached(u, s) && t < |s.threads|
    ensures Live(s) && s' == Advance(s, t, choice) && Reached(u, s')
  {
    ReachedStep(u, s, Act(t, choice));
    s' := Step(s, Act(t, choice));
  }

  lemma Go(u: Setup, s: System) returns (s': System)
    requires 0 < u.n && Reached(u, s)
    ensures Live(s) && s' == RecoverStep(s) && Reached(u, s')
  {
    ReachedStep(u, s, Recover);
    s' := Step(s, Recover);
  }

  /** A step on a counter, seen from everything else. */
  lemma DoCount(u: Setup, s: System, t: nat, choice: Choice) returns (s': System)
    requires 0 < u.n && Reached(u, s) && t < |s.threads| && Counting(s.threads[t])
    ensures Reached(u, s')
    ensures s' == s.(threads := s.threads[t := CountStep(s.threads[t], choice).0], counts := s'.counts)
  {
    s' := Do(u, s, t, choice);
  }

  // ---- The ring, while it is in use ----

  /** Armed, with no completion waiting. */
  ghost predicate Up(c: Core) {
    Inv(c) && c.ring.started && c.engine.run && c.hist.posts > 0 && c.hist.done == 0
  }

  /** The engine has the k + 1 oldest posted descriptors to fetch. */
  ghost predicate Open(c: Core, k: nat) {
    Up(c) && Fetching(c) && c.Off(c.engine.tail.value) == k < c.ring.posted
  }

  /** The engine has processed everything up to its tail. */
  ghost predicate Parked(c: Core) {
    Up(c) && c.engine.caught && c.engine.tail.Some?
  }

  const DONE: nat := 8 * TWO28

  lemma FrameCore(c: Core, k: nat)
    requires Open(c, k)
    ensures !ZeroLength(c) && Finished(DONE)
    ensures var d := Complete(c, DONE);
            && d.Shape() && Inv(d) && Consume(d).1.Frame?
            && var e := Consume(d).0;
            && e.ring.posted == c.ring.posted - 1 && e.ring.tail == c.ring.tail
            && if k > 0 then Open(e, k - 1) else Parked(e)
  {
    FetchInWindow(c);
    CompleteKeepsInv(c, DONE);
    var d := Complete(c, DONE);
    ConsumeTakesCompletion(d);
    ConsumeKeepsInv(d);
  }

  /** What posting leaves as it is. */
  predicate Beside(c: Core, d: Core) {
    && d.engine == c.engine && d.ring.consume == c.ring.consume && d.ring.started == c.ring.started
    && d.hist.done == c.hist.done && d.limit == c.limit && d.N() == c.N()
    && d.ring.posted >= c.ring.posted && d.hist.posts == c.hist.posts + (d.ring.posted - c.ring.posted)
  }

  lemma BesideOpen(c: Core, d: Core, k: nat)
    requires Beside(c, d) && Inv(d)
    ensures Open(c, k) ==> Open(d, k)
    ensures Parked(c) ==> Parked(d)
  {
  }

  lemma PostCore(c: Core, rx: Buf)
    requires Inv(c) && c.ring.posted < c.N() && c.ring.posted < c.limit
    ensures PostOne(c, rx).1
    ensures var d := PostOne(c, rx).0; Inv(d) && Beside(c, d) && d.ring.posted == c.ring.posted + 1
  {
    PostOneKeepsInv(c, rx);
  }

  lemma PublishCore(c: Core)
    requires Up(c) && c.ring.posted > 0 && !(c.engine.caught && c.ring.posted == c.N())
    ensures Open(UpdateTail(c), c.ring.posted - 1)
  {
    PublicationOpensAll(c);
    UpdateTailKeepsInv(c);
  }

  // ---- Frames ----

  /** A frame arrives and thread t takes it out of the ring. */
  lemma FrameTaken(u: Setup, s: System, t: nat, k: nat) returns (s': System, rx: Buf)
    requires 0 < u.n && Reached(u, s) && t < |s.threads| && s.threads[t].Idle? && Open(s.core, k)
    ensures Reached(u, s') && s' == s.(core := s'.core, threads := s.threads[t := Taken(rx)])
    ensures s'.core.ring.posted == s.core.ring.posted - 1 && s'.core.ring.tail == s.core.ring.tail
    ensures if k > 0 then Open(s'.core, k - 1) else Parked(s'.core)
  {
    FrameCore(s.core, k);
    ReachedStep(u, s, EngineFrame(DONE));
    s' := Do(u, Step(s, EngineFrame(DONE)), t, Poll);
    rx := Consume(Complete(s.core, DONE)).1.rx;
  }

  lemma ReadyPut(u: Setup, s: System, t: nat, rx: Buf) returns (s': System)
    requires 0 < u.n && Reached(u, s) && t < |s.threads| && s.threads[t] == Readying(rx)
    ensures Reached(u, s') && s' == s.(ready := s.ready + [rx], threads := s.threads[t := Idle])
  {
    s' := Do(u, s, t, KeepOn);
  }

  /** The frame that thread t took goes to the ready FIFO. */
  lemma FrameReady(u: Setup, s: System, t: nat, rx: Buf) returns (s': System)
    requires 0 < u.n && Reached(u, s) && t < |s.threads| && s.threads[t] == Taken(rx)
    ensures Reached(u, s') && s' == s.(ready := s.ready + [rx], threads := s.threads[t := Idle], counts := s'.counts)
  {
    var s1 := DoCount(u, s, t, KeepOn);
    var s2 := DoCount(u, s1, t, KeepOn);
    s' := ReadyPut(u, s2, t, rx);
  }

  lemma FreePut(u: Setup, s: System, t: nat, rx: Buf) returns (s': System)
    requires 0 < u.n && Reached(u, s) && t < |s.threads| && s.threads[t] == Returning(rx)
    ensures Reached(u, s') && s' == s.(free := s.free + [rx], threads := s.threads[t := Getting(false)])
  {
    s' := Do(u, s, t, KeepOn);
  }

  /** A buffer that thread t is about to release becomes free, and the refill of thread t begins. */
  lemma BufferFreed(u: Setup, s: System, t: nat, rx: Buf) returns (s': System)
    requires 0 < u.n && Reached(u, s) && t < |s.threads| && s.threads[t] == Releasing(rx)
    ensures Reached(u, s')
    ensures s' == s.(free := s.free + [rx], threads := s.threads[t := Getting(false)], counts := s'.counts)
  {
    var s1 := DoCount(u, s, t, KeepOn);
    s' := FreePut(u, s1, t, rx);
  }

  /** The interceptor takes the frame: its buffer is free again. */
  lemma FrameIntercepted(u: Setup, s: System, t: nat, rx: Buf) returns (s': System)
    requires 0 < u.n && Reached(u, s) && t < |s.threads| && s.threads[t] == Taken(rx)
    ensures Reached(u, s')
    ensures s' == s.(free := s.free + [rx], threads := s.threads[t := Getting(false)], counts := s'.counts)
  {
    var s1 := DoCount(u, s, t, KeepOn);
    var s2 := DoCount(u, s1, t, Release);
    s' := BufferFreed(u, s2, t, rx);
  }

  lemma ReadyGot(u: Setup, s: System, t: nat) returns (s': System)
    requires 0 < u.n && Reached(u, s) && t < |s.threads| && s.threads[t].Idle? && s.ready != []
    ensures Reached(u, s')
    ensures s' == s.(ready := s.ready[1..], threads := s.threads[t := Fetched(s.ready[0])])
  {
    s' := Do(u, s, t, Work);
  }

  lemma WorkerClaims(u: Setup, s: System, t: nat, rx: Buf) returns (s': System)
    requires 0 < u.n && Reached(u, s) && t < |s.threads| && s.threads[t] == Fetched(rx)
    ensures Reached(u, s') && s' == s.(threads := s.threads[t := Working(rx)], counts := s'.counts)
  {
    var s1 := DoCount(u, s, t, KeepOn);
    s' := DoCount(u, s1, t, KeepOn);
  }

  lemma WorkerDrops(u: Setup, s: System, t: nat, rx: Buf) returns (s': System)
    requires 0 < u.n && Reached(u, s) && t < |s.threads| && s.threads[t] == Fetched(rx)
    ensures Reached(u, s') && s' == s.(threads := s.threads[t := Releasing(rx)], counts := s'.counts)
  {
    var s1 := WorkerClaims(u, s, t, rx);
    s' := DoCount(u, s1, t, Release);
  }

  /** Thread t drops the oldest ready frame. */
  lemma FrameDropped(u: Setup, s: System, t: nat) returns (s': System)
    requires 0 < u.n && Reached(u, s) && t < |s.threads| && s.threads[t].Idle? && s.ready != []
    ensures Reached(u, s')
    ensures s' == s.(free := s.free + [s.ready[0]], ready := s.ready[1..],
                     threads := s.threads[t := Getting(false)], counts := s'.counts)
  {
    var rx := s.ready[0];
    var s1 := ReadyGot(u, s, t);
    var s2 := WorkerDrops(u, s1, t, rx);
    s' := BufferFreed(u, s2, t, rx);
  }

  // ---- Refills ----

  /** Thread t posts the first free buffer. */
  lemma PostFirst(u: Setup, s: System, t: nat) returns (s': System)
    requires 0 < u.n && Reached(u, s) && t < |s.threads| && s.threads[t].Getting? && s.free != []
    requires s.core.ring.posted < u.n && s.core.ring.posted < u.l
    ensures Reached(u, s') && s'.threads == s.threads[t := Getting(true)]
    ensures s'.recovery == s.recovery && s'.ready == s.ready && s'.free == s.free[1..]
    ensures Beside(s.core, s'.core) && s'.core.ring.posted == s.core.ring.posted + 1
  {
    ReachedSafe(u, s);
    PostCore(s.core, s.free[0]);
    var s1 := Do(u, s, t, KeepOn);
    var s2 := Do(u, s1, t, KeepOn);
    var s3 := DoCount(u, s2, t, KeepOn);
    s' := DoCount(u, s3, t, KeepOn);
  }

  lemma RefillEmpty(u: Setup, s: System, t: nat) returns (s': System)
    requires 0 < u.n && Reached(u, s) && t < |s.threads| && s.threads[t].Getting? && s.free == []
    ensures Reached(u, s') && s' == s.(threads := s.threads[t := EndRefill(s.threads[t].queued)])
  {
    s' := Do(u, s, t, KeepOn);
  }

  lemma PostRefused(u: Setup, s: System, t: nat) returns (s': System)
    requires 0 < u.n && Reached(u, s) && t < |s.threads| && s.threads[t].Holding? && s.core.ring.posted == u.l
    ensures Reached(u, s') && s' == s.(threads := s.threads[t := PuttingBack(s.threads[t].rx, s.threads[t].queued)])
  {
    ReachedSafe(u, s);
    s' := Do(u, s, t, KeepOn);
  }

  lemma RefillRefused(u: Setup, s: System, t: nat) returns (s': System)
    requires 0 < u.n && Reached(u, s) && t < |s.threads| && s.threads[t].Getting? && s.free != []
    requires s.core.ring.posted == u.l
    ensures Reached(u, s') && s'.threads == s.threads[t := EndRefill(s.threads[t].queued)] && s'.core == s.core
    ensures s'.recovery == s.recovery && s'.ready == s.ready && |s'.free| == |s.free|
  {
    var s1 := Do(u, s, t, KeepOn);
    var s2 := PostRefused(u, s1, t);
    s' := Do(u, s2, t, KeepOn);
  }

  /** Thread t posts as long as there are free buffers and room, up to its publication. */
  lemma RefillAll(u: Setup, s: System, t: nat) returns (s': System)
    requires 0 < u.n && Reached(u, s) && t < |s.threads| && s.threads[t].Getting?
    requires s.core.ring.posted + |s.free| <= u.n
    ensures Reached(u, s') && s'.recovery == s.recovery && s'.ready == s.ready && Beside(s.core, s'.core)
    ensures s'.core.ring.posted + |s'.free| == s.core.ring.posted + |s.free|
    ensures s'.free == [] || s'.core.ring.posted == u.l
    ensures s'.threads == s.threads[t := EndRefill(s.threads[t].queued || s'.core.ring.posted > s.core.ring.posted)]
    decreases |s.free|
  {
    ReachedSafe(u, s);
    if s.free == [] {
      s' := RefillEmpty(u, s, t);
    } else if s.core.ring.posted == u.l {
      s' := RefillRefused(u, s, t);
    } else {
      var s1 := PostFirst(u, s, t);
      s' := RefillAll(u, s1, t);
    }
  }

  /** Thread t publishes. */
  lemma Published(u: Setup, s: System, t: nat) returns (s': System)
    requires 0 < u.n && Reached(u, s) && t < |s.threads| && s.threads[t].Publishing?
    ensures Reached(u, s') && s'.threads == s.threads[t := Idle] && s' == s.(core := s'.core, threads := s'.threads)
    ensures Live(s) && s'.core == UpdateTail(s.core)
  {
    s' := Do(u, s, t, KeepOn);
  }

  // ---- Arming ----

  lemma ArmCore(c: Core)
    requires Inv(c) && !c.ring.started && c.ring.posted > 0
    ensures var d := ArmStart(ArmRun(ArmCurrent(ResetEngine(c))));
            Open(d, c.ring.posted - 1) && d.ring == c.ring.(started := true) && d.limit == c.limit
  {
    ArmKeepsInv(c);
  }

  lemma ArmEmptyCore(c: Core)
    requires Inv(c) && !c.ring.started && c.ring.posted == 0
    ensures EmptyPublication(ArmStart(ArmRun(ArmCurrent(ResetEngine(c)))))
  {
  }

  lemma AimEngine(u: Setup, s: System) returns (s': System)
    requires 0 < u.n && Reached(u, s) && s.recovery.Reset?
    ensures Reached(u, s') && s' == s.(core := ArmCurrent(s.core), recovery := Aimed)
  {
    s' := Go(u, s);
  }

  lemma SetRunning(u: Setup, s: System) returns (s': System)
    requires 0 < u.n && Reached(u, s) && s.recovery.Reset?
    ensures Reached(u, s') && s' == s.(core := ArmRun(ArmCurrent(s.core)), recovery := Running)
  {
    var s1 := AimEngine(u, s);
    s' := Go(u, s1);
  }

  /** From an idle work queue: the engine is reset and armed. */
  lemma ArmUp(u: Setup, s: System) returns (s': System)
    requires 0 < u.n && Reached(u, s) && 0 < |s.threads| && s.recovery.Refilling? && s.threads[0].Idle?
    ensures Reached(u, s')
    ensures s' == s.(core := ArmStart(ArmRun(ArmCurrent(ResetEngine(s.core)))), recovery := Quiet)
  {
    var s1 := Go(u, s);
    var s2 := SetRunning(u, s1);
    s' := Go(u, s2);
  }

  // ---- In use ----

  /** Every buffer is free, posted or ready, the posted ones are all published, and the first and last thread idle. */
  ghost predicate InUse(u: Setup, s: System) {
    && 0 < u.n && 0 < u.l && Reached(u, s) && s.recovery.Quiet?
    && |s.threads| == 3 && s.threads[0].Idle? && s.threads[2].Idle?
    && |s.free| + |s.ready| + s.core.ring.posted == u.n
    && if s.core.ring.posted > 0 then Open(s.core, s.core.ring.posted - 1) else Parked(s.core) && s.ready != []
  }

  lemma BootRefill(u: Setup) returns (s: System)
    requires 0 < u.n && 0 < u.l
    ensures Reached(u, s) && s.recovery.Refilling? && s.ready == [] && s.threads == [Idle, Idle, Idle]
    ensures s.core.ring.posted == (if u.n <= u.l then u.n else u.l) && |s.free| + s.core.ring.posted == u.n
    ensures !s.core.ring.started
  {
    ReachedStart(u);
    var s0 := Init(u.n, u.l, 3);
    var s1 := RefillAll(u, s0, 0);
    ReachedSafe(u, s1);
    s := Published(u, s1, 0);
    assert s.threads == [Idle, Idle, Idle];
  }

  /** Initialisation posts what it can and arms. */
  lemma Boot(u: Setup) returns (s: System)
    requires 0 < u.n && 0 < u.l
    ensures InUse(u, s) && s.threads == [Idle, Idle, Idle] && s.ready == []
    ensures s.core.ring.posted == if u.n <= u.l then u.n else u.l
  {
    var s1 := BootRefill(u);
    ReachedSafe(u, s1);
    ArmCore(s1.core);
    s := ArmUp(u, s1);
  }

  /** The next frame reaches the ready FIFO. */
  lemma OneReady(u: Setup, s: System) returns (s': System)
    requires InUse(u, s) && s.core.ring.posted > 0
    ensures InUse(u, s') && s'.core.ring.posted == s.core.ring.posted - 1 && s'.free == s.free
    ensures s'.threads == s.threads && |s'.ready| == |s.ready| + 1
  {
    var s1, rx := FrameTaken(u, s, 2, s.core.ring.posted - 1);
    s' := FrameReady(u, s1, 2, rx);
    assert s'.threads == s.threads;
  }

  lemma StartRefill(u: Setup, s: System, t: nat) returns (s': System)
    requires 0 < u.n && Reached(u, s) && t < |s.threads| && s.threads[t].Idle?
    ensures Reached(u, s') && s' == s.(threads := s.threads[t := Getting(false)])
  {
    s' := Do(u, s, t, Refill);
  }

  /** Thread 2 publishes everything that is posted. */
  lemma PublishesAll(u: Setup, s: System) returns (s': System)
    requires 0 < u.n && 0 < u.l && Reached(u, s) && s.recovery.Quiet?
    requires |s.threads| == 3 && s.threads[0].Idle? && s.threads[2].Publishing?
    requires |s.free| + |s.ready| + s.core.ring.posted == u.n
    requires Up(s.core) && s.core.ring.posted > 0 && !(s.core.engine.caught && s.core.ring.posted == s.core.N())
    ensures InUse(u, s') && s'.threads == s.threads[2 := Idle] && s'.core.ring.posted == s.core.ring.posted
    ensures s'.free == s.free && s'.ready == s.ready
  {
    PublishCore(s.core);
    s' := Published(u, s, 2);
  }

  /** An empty ring is refilled and published. */
  lemma RefillRing(u: Setup, s: System) returns (s': System)
    requires InUse(u, s) && s.core.ring.posted == 0 && s.free != []
    ensures InUse(u, s') && s'.core.ring.posted > 0 && |s'.free| + s'.core.ring.posted == |s.free|
    ensures s'.threads == s.threads && s'.ready == s.ready
  {
    var s1 := StartRefill(u, s, 2);
    var s2 := RefillAll(u, s1, 2);
    ReachedSafe(u, s2);
    BesideOpen(s.core, s2.core, 0);
    s' := PublishesAll(u, s2);
    assert s'.threads == s.threads;
  }

  /** Every buffer ends up in the ready FIFO. */
  lemma AllReady(u: Setup, s: System) returns (s': System)
    requires InUse(u, s)
    ensures InUse(u, s') && s'.core.ring.posted == 0 && s'.free == [] && |s'.ready| == u.n && s'.threads == s.threads
    decreases 2 * |s.free| + s.core.ring.posted
  {
    if s.core.ring.posted > 0 {
      var s1 := OneReady(u, s);
      s' := AllReady(u, s1);
    } else if s.free != [] {
      var s1 := RefillRing(u, s);
      s' := AllReady(u, s1);
    } else {
      s' := s;
    }
  }

  // ---- Recovery of an empty ring ----

  lemma EmptyRecorded(c: Core)
    requires Inv(c) && c.ring.posted == 0
    ensures Recorded(c.ring.owner) == []
  {
    RecordedNone(c.ring.owner);
  }

  /** The engine halts on an error, is reset, and the ring is rebuilt. */
  lemma StopEmpty(u: Setup, s: System) returns (s': System)
    requires 0 < u.n && Reached(u, s) && 0 < |s.threads| && s.threads[0].Idle? && s.recovery.Quiet?
    requires s.core.ring.posted == 0
    ensures Reached(u, s') && s' == s.(core := Rebuild(ResetEngine(Halt(s.core))), recovery := Orphaned([]))
  {
    ReachedSafe(u, s);
    EmptyRecorded(s.core);
    ReachedStep(u, s, EngineHalt);
    var s1 := Go(u, Step(s, EngineHalt));
    s' := Go(u, s1);
  }

  lemma NoOrphans(u: Setup, s: System) returns (s': System)
    requires 0 < u.n && Reached(u, s) && 0 < |s.threads| && s.threads[0].Idle? && s.recovery == Orphaned([])
    ensures Reached(u, s')
    ensures s' == s.(threads := s.threads[0 := Getting(false)], recovery := Refilling, counts := s'.counts)
  {
    var s1 := Go(u, s);
    s' := Go(u, s1);
  }

  /** A recovery of an empty ring, up to its refill. */
  lemma TearDown(u: Setup, s: System) returns (s': System)
    requires 0 < u.n && Reached(u, s) && 0 < |s.threads| && s.threads[0].Idle? && s.recovery.Quiet?
    requires s.core.ring.posted == 0
    ensures Reached(u, s') && s'.recovery.Refilling? && s'.threads == s.threads[0 := Getting(false)]
    ensures s'.free == s.free && s'.ready == s.ready
    ensures s'.core.ring.posted == 0 && !s'.core.ring.started
  {
    var s1 := StopEmpty(u, s);
    s' := NoOrphans(u, s1);
  }
}
