/**
 What a refill and a whole poll make of the ring and the FIFOs when nothing interleaves, and what holds of
 them for every ring, every FIFO and every interceptor.
 */
module RxPoll {
  import opened Wrappers
  import opened RxRing
  import opened RxRingProofs

  function Min(a: int, b: int): int {
    if a <= b then a else b
  }

  /** The free FIFO after a refill that posted n buffers: the one that was refused went to the back. */
  function Rotated(pool: seq<Buf>, n: nat): seq<Buf>
    requires n <= |pool|
  {
    if n == |pool| then [] else pool[n + 1..] + [pool[n]]
  }

  /** The ring and the two FIFOs a poll works on. */
  datatype Pools = Pools(core: Core, free: seq<Buf>, ready: seq<Buf>)

  /** What a refill makes of ring and free FIFO. */
  ghost function Refilled(c: Core, free: seq<Buf>): (r: (Core, seq<Buf>))
    requires Inv(c)
    ensures Inv(r.0) && r.0.hist.done == c.hist.done && r.0.hist.posts >= c.hist.posts
  {
    var n := Min(|free|, Min(c.N(), c.limit) - c.ring.posted);
    RefillInv(c, free[..n]);
    var posts := PostAll(c, free[..n]);
    (if n > 0 then UpdateTail(posts) else posts, Rotated(free, n))
  }

  lemma RefillInv(c: Core, bufs: seq<Buf>)
    requires Inv(c)
    ensures var d := PostAll(c, bufs);
            && Inv(d) && Inv(UpdateTail(d)) && d.hist.done == UpdateTail(d).hist.done == c.hist.done
            && d.hist.posts == UpdateTail(d).hist.posts >= c.hist.posts
  {
    PostAllKeepsInv(c, bufs);
    PostAllKeepsCompletions(c, bufs);
    PostAllCounts(c, bufs);
    UpdateTailKeepsInv(PostAll(c, bufs));
  }

  lemma {:induction false} PostAllCounts(c: Core, bufs: seq<Buf>)
    requires c.Shape()
    ensures PostAll(c, bufs).hist.posts >= c.hist.posts
    decreases |bufs|
  {
    if bufs == [] {
    } else {
      PostAllCounts(c, bufs[..|bufs| - 1]);
    }
  }

  lemma RefilledUnstarted(c: Core, free: seq<Buf>)
    requires Inv(c) && !c.ring.started && c.ring.posted == 0
    ensures Refilled(c, free).0 == PostAll(c, free[..Min(|free|, Min(c.N(), c.limit))])
  {
    PostAllBeside(c, free[..Min(|free|, Min(c.N(), c.limit))]);
  }

  /** A refill of a stopped, empty ring: as many buffers as fit, in FIFO order, and no publication. */
  lemma StoppedRefill(c: Core, free: seq<Buf>)
    requires Inv(c) && !c.ring.started && c.ring.posted == 0 && c.hist.done == 0
    ensures var n := Min(|free|, Min(c.N(), c.limit));
            var d := Refilled(c, free).0;
            && d.ring.posted == n && !d.ring.started && d.hist.done == 0 && d.engine == c.engine
            && Queue(d) == free[..n]
  {
    var bufs := free[..Min(|free|, Min(c.N(), c.limit))];
    RefilledUnstarted(c, free);
    PostAllEnqueues(c, bufs);
    assert Queue(c) == [] && Queue(c) + bufs == bufs;
  }

  /** One round of the poll: the oldest completion, released and refilled if the interceptor takes it. */
  ghost function PollOnce(p: Pools, intercept: Buf -> bool): (q: Pools)
    requires Inv(p.core) && p.core.hist.done > 0
    ensures Inv(q.core) && q.core.hist.done == p.core.hist.done - 1 && q.core.hist.posts >= p.core.hist.posts
  {
    ConsumeKeepsInv(p.core);
    ConsumeTakesCompletion(p.core);
    var (c, r) := Consume(p.core);
    if !Received(r.status).1 && intercept(r.rx) then
      var (d, free) := Refilled(c, p.free + [r.rx]);
      Pools(d, free, p.ready)
    else Pools(c, p.free, p.ready + [r.rx])
  }

  ghost function PollAll(p: Pools, intercept: Buf -> bool): (q: Pools)
    requires Inv(p.core)
    ensures Inv(q.core) && q.core.hist.done == 0 && q.core.hist.posts >= p.core.hist.posts
    decreases p.core.hist.done
  {
    if p.core.hist.done == 0 then p else PollAll(PollOnce(p, intercept), intercept)
  }

  /** The whole poll: every completion, then a refill if there were any. */
  ghost function WholePoll(p: Pools, intercept: Buf -> bool): Pools
    requires Inv(p.core)
  {
    var q := PollAll(p, intercept);
    if p.core.hist.done == 0 then q
    else
      var (d, free) := Refilled(q.core, q.free);
      Pools(d, free, q.ready)
  }

  lemma RefillsAside(c: Core, free: seq<Buf>)
    requires Inv(c)
    ensures Completions(Refilled(c, free).0) == Completions(c)
  {
    var bufs := free[..Min(|free|, Min(c.N(), c.limit) - c.ring.posted)];
    PostAllKeepsInv(c, bufs);
    PostAllKeepsCompletions(c, bufs);
    RefillKeepsCompletions(c, bufs);
  }

  lemma OldestFirst(c: Core)
    requires Inv(c) && c.hist.done > 0
    ensures Consume(c).1.Frame? && Inv(Consume(c).0) && Completions(c) != []
    ensures Completions(c)[0] == (Some(Consume(c).1.rx), Consume(c).1.status)
    ensures Completions(c)[1..] == Completions(Consume(c).0)
  {
    ConsumeTakesCompletion(c);
    ConsumeKeepsInv(c);
    ConsumeTakesOldest(c);
  }

  lemma PollOnceReleases(p: Pools, intercept: Buf -> bool, c: Core, rx: Buf, status: nat)
    requires Inv(p.core) && p.core.hist.done > 0 && Consume(p.core) == (c, Frame(rx, status)) && Inv(c)
    requires !Received(status).1 && intercept(rx)
    ensures var (d, free) := Refilled(c, p.free + [rx]); PollOnce(p, intercept) == Pools(d, free, p.ready)
  {
  }

  lemma PollOnceSplits(p: Pools, intercept: Buf -> bool, c: Core, rx: Buf, status: nat)
    requires Inv(p.core) && p.core.hist.done > 0 && Consume(p.core) == (c, Frame(rx, status)) && Inv(c)
    ensures var q := PollOnce(p, intercept);
            Completions(q.core) == Completions(c) && q.ready == p.ready + KeptOne((Some(rx), status), intercept)
  {
    if !Received(status).1 && intercept(rx) {
      PollOnceReleases(p, intercept, c, rx, status);
      RefillsAside(c, p.free + [rx]);
    }
  }

  lemma PollOnceKeeps(p: Pools, intercept: Buf -> bool)
    requires Inv(p.core) && p.core.hist.done > 0
    ensures var frames, q := Completions(p.core), PollOnce(p, intercept);
            && frames != [] && Completions(q.core) == frames[1..]
            && q.ready == p.ready + KeptOne(frames[0], intercept)
  {
    OldestFirst(p.core);
    var (c, r) := Consume(p.core);
    PollOnceSplits(p, intercept, c, r.rx, r.status);
  }

  /** The poll ends at a completion without a buffer only if it began there. */
  lemma OrphanFoundIff(p: Pools, intercept: Buf -> bool)
    requires Inv(p.core)
    ensures Consume(PollAll(p, intercept).core).1.NoBuffer? <==> Consume(p.core).1.NoBuffer?
  {
    OrphansOnlyAtFirst(p.core);
    OrphansOnlyAtFirst(PollAll(p, intercept).core);
  }

  /** A poll hands every completed frame to the ready FIFO in posting order, less the intercepted ones. */
  lemma {:induction false} PollInOrder(p: Pools, intercept: Buf -> bool)
    requires Inv(p.core)
    ensures PollAll(p, intercept).ready == p.ready + Kept(Completions(p.core), intercept)
    decreases p.core.hist.done
  {
    if p.core.hist.done == 0 {
      assert p.ready + [] == p.ready;
    } else {
      PollOnceKeeps(p, intercept);
      var q, frames := PollOnce(p, intercept), Completions(p.core);
      PollInOrder(q, intercept);
      KeptStep(p.ready, q.ready, frames, intercept);
    }
  }

  /** A completion without a buffer is found only where nothing was ever posted, and so nothing completed. */
  lemma OrphansOnlyAtFirst(c: Core)
    requires Inv(c)
    ensures Consume(c).1.NoBuffer? ==> c.hist.posts == 0 && c.hist.done == 0
    ensures c.hist.done > 0 ==> c.hist.posts > 0
  {
    ConsumeTakesCompletion(c);
  }

  /** What one completion adds to the ready FIFO. */
  function KeptOne(frame: (Option<Buf>, nat), intercept: Buf -> bool): seq<Buf> {
    if frame.0.Some? && (Received(frame.1).1 || !intercept(frame.0.value)) then [frame.0.value] else []
  }

  /** The buffers of the frames that the interceptor leaves to the worker. */
  function Kept(frames: seq<(Option<Buf>, nat)>, intercept: Buf -> bool): seq<Buf> {
    if frames == [] then [] else KeptOne(frames[0], intercept) + Kept(frames[1..], intercept)
  }

  lemma KeptStep(before: seq<Buf>, now: seq<Buf>, frames: seq<(Option<Buf>, nat)>, intercept: Buf -> bool)
    requires frames != [] && now == before + KeptOne(frames[0], intercept)
    ensures now + Kept(frames[1..], intercept) == before + Kept(frames, intercept)
  {
    var one, later := KeptOne(frames[0], intercept), Kept(frames[1..], intercept);
    Associate(before, one, later);
  }

  lemma Associate(a: seq<Buf>, b: seq<Buf>, c: seq<Buf>)
    ensures (a + b) + c == a + (b + c)
  {
  }
}
