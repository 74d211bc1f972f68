/**
 Runs that reach the completion without a buffer. A refiller that has posted is held up while others
 publish and consume what it posted, until every buffer is in the ready FIFO; then the engine halts, the
 recovery arms an empty ring without a tail, and the refiller publishes slot 0.
 */
module RxStaleTail {
  import opened BdStatus
  import opened RxRing
  import opened RxSystem
  import opened RxRuns
  import opened RxSchedules

  // ---- Without any step of a thread during a recovery ----

  /** The worker drops a frame and posts the first free buffer; there it is held up. */
  lemma WorkerPosts(u: Setup, s: System) returns (s': System)
    requires InUse(u, s) && s.threads[1].Idle? && s.ready != []
    requires 0 < s.core.ring.posted < u.l && s.core.ring.posted < u.n
    ensures 0 < u.n && Reached(u, s') && s'.recovery.Quiet? && s'.threads == s.threads[1 := Getting(true)]
    ensures Open(s'.core, s.core.ring.posted - 1) && s'.core.ring.posted == s.core.ring.posted + 1
    ensures |s'.free| == |s.free| && s'.ready == s.ready[1..]
  {
    var s1 := FrameDropped(u, s, 1);
    s' := PostFirst(u, s1, 1);
    ReachedSafe(u, s');
    BesideOpen(s.core, s'.core, s.core.ring.posted - 1);
  }

  lemma NotAllSinceParked(c: Core, d: Core, k: nat)
    requires Beside(c, d) && Inv(d)
    requires Open(c, k) || (Parked(c) && d.ring.posted < d.N())
    ensures Up(d) && !(d.engine.caught && d.ring.posted == d.N())
  {
    BesideOpen(c, d, k);
  }

  /** The poller's refill posts another buffer. */
  lemma PollerRefills(u: Setup, s: System, k: nat) returns (s': System)
    requires 0 < u.n && Reached(u, s) && s.threads == [Idle, Getting(true), Getting(false)] && s.free != []
    requires |s.free| + s.core.ring.posted == u.n && s.core.ring.posted < u.l
    requires Open(s.core, k) || (Parked(s.core) && u.l < u.n)
    ensures Reached(u, s') && s'.recovery == s.recovery && s'.threads == [Idle, Getting(true), Publishing]
    ensures s'.ready == s.ready && |s'.free| + s'.core.ring.posted == u.n && s'.core.ring.posted > 0
    ensures Up(s'.core) && !(s'.core.engine.caught && s'.core.ring.posted == s'.core.N())
  {
    s' := RefillAll(u, s, 2);
    ReachedSafe(u, s');
    NotAllSinceParked(s.core, s'.core, k);
  }

  /** The poller's interceptor takes the next frame, and its refill publishes what was posted. */
  lemma PollerPublishes(u: Setup, s: System) returns (s': System)
    requires 0 < u.n && 0 < u.l && Reached(u, s) && s.recovery.Quiet?
    requires s.threads == [Idle, Getting(true), Idle] && s.ready == [] && 2 <= s.core.ring.posted <= u.l
    requires Open(s.core, s.core.ring.posted - 2)
    requires |s.free| + s.core.ring.posted == u.n && u.n >= 3 && (s.free == [] || s.core.ring.posted == u.l)
    ensures InUse(u, s') && s'.threads == s.threads && s'.core.ring.posted > 0
  {
    var s1, rx := FrameTaken(u, s, 2, s.core.ring.posted - 2);
    var s2 := FrameIntercepted(u, s1, 2, rx);
    assert s2.threads == [Idle, Getting(true), Getting(false)];
    var s3 := PollerRefills(u, s2, if s.core.ring.posted > 2 then s.core.ring.posted - 3 else 0);
    s' := PublishesAll(u, s3);
    assert s'.threads == s.threads;
  }

  /** Boot, one frame to the worker, and the worker held up behind its post while the poller publishes it. */
  lemma HeldUp(u: Setup) returns (s: System)
    requires u.n >= 3 && u.l >= 2
    ensures InUse(u, s) && s.threads == [Idle, Getting(true), Idle]
  {
    var s0 := Boot(u);
    var s1 := OneReady(u, s0);
    var s2 := WorkerPosts(u, s1);
    assert s2.threads == [Idle, Getting(true), Idle];
    s := PollerPublishes(u, s2);
  }

  /** The recovery of an empty ring with no free buffer arms it without a tail. */
  lemma ArmsEmpty(u: Setup, s: System) returns (s': System)
    requires InUse(u, s) && s.core.ring.posted == 0 && s.free == []
    ensures 0 < u.n && Reached(u, s') && s'.threads == s.threads && s'.free == [] && EmptyPublication(s'.core)
  {
    var s1 := TearDown(u, s);
    var s2 := RefillEmpty(u, s1, 0);
    assert s2.threads == s.threads;
    ReachedSafe(u, s2);
    ArmEmptyCore(s2.core);
    s' := ArmUp(u, s2);
  }

  /** The refiller that was held up gets to its publication. */
  lemma ThenPublishes(u: Setup, s: System) returns (s': System)
    requires InUse(u, s) && s.core.ring.posted == 0 && s.free == [] && s.threads == [Idle, Getting(true), Idle]
    ensures 0 < u.n && Reached(u, s') && PublishesEmpty(s', Act(1, KeepOn))
  {
    var s1 := ArmsEmpty(u, s);
    s' := RefillEmpty(u, s1, 1);
  }

  /** The run, and the two steps after it. */
  ghost predicate OrphanRun(u: Setup, acts: seq<Action>)
    requires 0 < u.n
  {
    var s := After(u.n, u.l, 3, acts);
    && PublishesEmpty(s, Act(1, KeepOn))
    && Consume(After(u.n, u.l, 3, acts + [Act(1, KeepOn), EngineReject(TWO28)]).core).1.NoBuffer?
  }

  lemma OrphanFrom(u: Setup, s: System)
    requires 0 < u.n && Reached(u, s) && PublishesEmpty(s, Act(1, KeepOn))
    ensures exists acts :: OrphanRun(u, acts)
  {
    ReachedSafe(u, s);
    EmptyPublicationOrphans(s, Act(1, KeepOn));
    var acts :| After(u.n, u.l, 3, acts) == s;
    var one, two := acts + [Act(1, KeepOn)], acts + [Act(1, KeepOn), EngineReject(TWO28)];
    assert one[..|acts|] == acts && two[..|one|] == one;
    assert After(u.n, u.l, 3, one) == Step(s, Act(1, KeepOn));
    assert OrphanRun(u, acts);
  }

  /**
   For three buffers or more and a posting limit of two or more there is such a run in which no thread
   takes a step while a recovery goes on, the work queue's own refill aside.
   */
  lemma OrphanCompletionReachable(u: Setup)
    requires u.n >= 3 && u.l >= 2
    ensures exists acts :: OrphanRun(u, acts)
  {
    var s0 := HeldUp(u);
    var s1 := AllReady(u, s0);
    var s := ThenPublishes(u, s1);
    OrphanFrom(u, s);
  }

  // ---- With a refill during a recovery ----

  /** While the ring is being rebuilt the worker posts a buffer, and is held up there; the arming publishes it. */
  lemma PostsMeanwhile(u: Setup, s: System) returns (s': System)
    requires InUse(u, s) && s.core.ring.posted == 0 && s.free == [] && s.threads == [Idle, Idle, Idle]
    ensures InUse(u, s') && s'.threads == [Idle, Getting(true), Idle]
  {
    var s1 := FrameDropped(u, s, 1);
    var s2 := TearDown(u, s1);
    var s3 := PostFirst(u, s2, 1);
    var s4 := RefillEmpty(u, s3, 0);
    assert s4.threads == [Idle, Getting(true), Idle];
    ReachedSafe(u, s4);
    ArmCore(s4.core);
    s' := ArmUp(u, s4);
  }

  /** With a refill during an earlier recovery, any number of buffers and any limit above zero will do. */
  lemma OrphanCompletionReachableAlways(u: Setup)
    requires u.n >= 1 && u.l >= 1
    ensures exists acts :: OrphanRun(u, acts)
  {
    var s0 := Boot(u);
    var s1 := AllReady(u, s0);
    var s2 := PostsMeanwhile(u, s1);
    var s3 := AllReady(u, s2);
    var s := ThenPublishes(u, s3);
    OrphanFrom(u, s);
  }
}
