/** The driver's refill and poll are what their steps do when one thread takes them and no other step falls between. */
module RxSolo {
  import opened Ledgers
  import opened RxRing
  import opened RxRingProofs
  import opened RxSystem
  import opened RxRuns
  import opened RxPoll
  import opened RxPollProofs

  predicate By(acts: seq<Action>, t: nat) {
    forall k :: 0 <= k < |acts| ==> acts[k].Act? && acts[k].thread == t
  }

  /** Thread t alone can take s to r. */
  ghost predicate Alone(s: System, t: nat, r: System)
    requires Live(s)
  {
    exists acts :: By(acts, t) && Run(s, acts) == r
  }

  lemma AloneStays(s: System, t: nat)
    requires Live(s)
    ensures Alone(s, t, s)
  {
    assert By([], t) && Run(s, []) == s;
  }

  lemma AloneLive(s: System, t: nat, r: System)
    requires Live(s) && Alone(s, t, r)
    ensures Live(r)
  {
  }

  lemma AloneOn(s: System, t: nat, u: System, choice: Choice)
    requires Live(s) && Live(u) && t < |u.threads| && Alone(s, t, u)
    ensures Live(Advance(u, t, choice)) && Alone(s, t, Advance(u, t, choice))
  {
    var acts :| By(acts, t) && Run(s, acts) == u;
    var more := acts + [Act(t, choice)];
    assert more[..|more| - 1] == acts;
    AdvanceLive(u, t, choice);
    assert By(more, t) && Run(s, more) == Advance(u, t, choice);
  }

  function Apart(c: Counts, free: int, dma: int, ready: int): Counts {
    Counts(c.free + free, c.dma + dma, c.ready + ready, c.worker, c.stack)
  }

  /** One post of the refill: four steps. */
  lemma PostRound(s0: System, t: nat, s: System, queued: bool, c: Core) returns (r: System)
    requires Live(s0) && Live(s) && t < |s.threads| && Alone(s0, t, s) && s.threads[t] == Getting(queued)
    requires s.free != [] && PostOne(s.core, s.free[0]) == (c, true) && c.Shape()
    ensures Live(r) && Alone(s0, t, r)
    ensures r == s.(core := c, free := s.free[1..], threads := s.threads[t := Getting(true)],
                    counts := Apart(s.counts, -1, 1, 0))
  {
    var s1 := s.(free := s.free[1..], threads := s.threads[t := Holding(s.free[0], queued)]);
    AloneOn(s0, t, s, KeepOn);
    assert Advance(s, t, KeepOn) == s1;
    var s2 := s1.(core := c, threads := s1.threads[t := Posted]);
    AloneOn(s0, t, s1, KeepOn);
    assert Advance(s1, t, KeepOn) == s2;
    r := CountedPost(s0, t, s2);
    assert r.threads == s.threads[t := Getting(true)];
  }

  /** The two counter operations behind a post. */
  lemma CountedPost(s0: System, t: nat, s: System) returns (r: System)
    requires Live(s0) && Live(s) && t < |s.threads| && Alone(s0, t, s) && s.threads[t] == Posted
    ensures Live(r) && Alone(s0, t, r)
    ensures r == s.(threads := s.threads[t := Getting(true)], counts := Apart(s.counts, -1, 1, 0))
  {
    var s1 := s.(threads := s.threads[t := CountedIn], counts := Apart(s.counts, 0, 1, 0));
    AloneOn(s0, t, s, KeepOn);
    assert Advance(s, t, KeepOn) == s1;
    AloneOn(s0, t, s1, KeepOn);
    r := Advance(s1, t, KeepOn);
    assert r.threads == s.threads[t := Getting(true)];
  }

  /** The end of a refill: the publication, if anything was queued. */
  lemma EndOfRefill(s0: System, t: nat, s: System, queued: bool) returns (r: System)
    requires Live(s0) && Live(s) && t < |s.threads| && Alone(s0, t, s) && s.threads[t] == EndRefill(queued)
    ensures Live(r) && Alone(s0, t, r)
    ensures r == s.(core := if queued then UpdateTail(s.core) else s.core, threads := s.threads[t := Idle])
  {
    if queued {
      AloneOn(s0, t, s, KeepOn);
      r := Advance(s, t, KeepOn);
    } else {
      r := s;
      assert s.threads[t := Idle] == s.threads;
    }
  }

  /** The refill stops at an empty FIFO. */
  lemma EmptyRound(s0: System, t: nat, s: System, queued: bool) returns (r: System)
    requires Live(s0) && Live(s) && t < |s.threads| && Alone(s0, t, s) && s.threads[t] == Getting(queued)
    requires s.free == []
    ensures Live(r) && Alone(s0, t, r)
    ensures r == s.(core := if queued then UpdateTail(s.core) else s.core, threads := s.threads[t := Idle])
  {
    AloneOn(s0, t, s, KeepOn);
    r := EndOfRefill(s0, t, Advance(s, t, KeepOn), queued);
    assert r.threads == s.threads[t := Idle];
  }

  /** It stops at a buffer that is refused, too, and puts it back. */
  lemma RefusedRound(s0: System, t: nat, s: System, queued: bool, rx: Buf, rest: seq<Buf>) returns (r: System)
    requires Live(s0) && Live(s) && t < |s.threads| && Alone(s0, t, s) && s.threads[t] == Getting(queued)
    requires s.free == [rx] + rest && PostOne(s.core, rx) == (s.core, false)
    ensures Live(r) && Alone(s0, t, r)
    ensures r == s.(core := if queued then UpdateTail(s.core) else s.core, threads := s.threads[t := Idle],
                    free := rest + [rx])
  {
    var s1 := s.(free := rest, threads := s.threads[t := Holding(rx, queued)]);
    AloneOn(s0, t, s, KeepOn);
    assert Advance(s, t, KeepOn) == s1;
    var s2 := s.(free := rest, threads := s.threads[t := PuttingBack(rx, queued)]);
    AloneOn(s0, t, s1, KeepOn);
    assert Advance(s1, t, KeepOn).threads == s2.threads;
    r := PutBack(s0, t, s2, queued, rx);
    assert r.threads == s.threads[t := Idle];
  }

  lemma PutBack(s0: System, t: nat, s: System, queued: bool, rx: Buf) returns (r: System)
    requires Live(s0) && Live(s) && t < |s.threads| && Alone(s0, t, s) && s.threads[t] == PuttingBack(rx, queued)
    ensures Live(r) && Alone(s0, t, r)
    ensures r == s.(core := if queued then UpdateTail(s.core) else s.core, threads := s.threads[t := Idle],
                    free := s.free + [rx])
  {
    AloneOn(s0, t, s, KeepOn);
    r := EndOfRefill(s0, t, Advance(s, t, KeepOn), queued);
    assert r.threads == s.threads[t := Idle];
  }

  /** How many buffers a refill posts. */
  function Room(c: Core, free: seq<Buf>): int {
    Min(|free|, Min(c.N(), c.limit) - c.ring.posted)
  }

  /** The refill after k posts, in state s, from the ring c and the FIFO pool it began with. */
  ghost predicate Midway(s: System, t: nat, c: Core, pool: seq<Buf>, k: nat)
    requires Inv(c)
  {
    && k <= Room(c, pool) && t < |s.threads| && s.threads[t] == Getting(k > 0)
    && s.core == PostAll(c, pool[..k]) && s.free == pool[k..]
  }

  lemma RefusedSame(c: Core, rx: Buf)
    requires c.Shape()
    ensures !PostOne(c, rx).1 ==> PostOne(c, rx) == (c, false)
  {
  }

  /** The next buffer is posted as long as there is room. */
  lemma NextPost(c: Core, pool: seq<Buf>, k: nat)
    requires Inv(c) && k <= Room(c, pool) && k < |pool|
    ensures var d := PostAll(c, pool[..k]);
            PostOne(d, pool[k]) == if k < Room(c, pool) then (PostAll(c, pool[..k + 1]), true) else (d, false)
  {
    PostAllBeside(c, pool[..k]);
    PostAllKeepsInv(c, pool[..k]);
    PostOneKeepsInv(PostAll(c, pool[..k]), pool[k]);
    RefusedSame(PostAll(c, pool[..k]), pool[k]);
    assert pool[..k + 1][..k] == pool[..k];
  }

  /** r is s with the ring and the FIFO as the refill leaves them, m of whose posts were still to come. */
  ghost predicate Ended(s: System, t: nat, c: Core, pool: seq<Buf>, m: int, r: System)
    requires Inv(c) && t < |s.threads|
  {
    r == s.(core := Refilled(c, pool).0, free := Refilled(c, pool).1, threads := s.threads[t := Idle],
            counts := Apart(s.counts, -m, m, 0))
  }

  lemma OnePostMore(s: System, t: nat, c: Core, pool: seq<Buf>, m: int, u: System, r: System)
    requires Inv(c) && t < |s.threads| == |u.threads| && Ended(u, t, c, pool, m, r)
    requires u == s.(core := u.core, free := u.free, threads := s.threads[t := Getting(true)],
                     counts := Apart(s.counts, -1, 1, 0))
    ensures Ended(s, t, c, pool, m + 1, r)
  {
    assert u.threads[t := Idle] == s.threads[t := Idle];
  }

  lemma LastRound(s0: System, t: nat, s: System, d: Core, pool: seq<Buf>, k: nat) returns (r: System)
    requires Live(s0) && Live(s) && t < |s.threads| && Alone(s0, t, s) && s.threads[t] == Getting(k > 0)
    requires s.core == d && k <= |pool| && s.free == pool[k..]
    requires k < |pool| ==> PostOne(d, pool[k]) == (d, false)
    ensures Live(r) && Alone(s0, t, r)
    ensures r == s.(core := if k > 0 then UpdateTail(d) else d, free := Rotated(pool, k),
                    threads := s.threads[t := Idle])
  {
    if k == |pool| {
      r := EmptyRound(s0, t, s, k > 0);
    } else {
      assert pool[k..] == [pool[k]] + pool[k + 1..];
      r := RefusedRound(s0, t, s, k > 0, pool[k], pool[k + 1..]);
    }
  }

  lemma EndedFolds(s: System, t: nat, c: Core, pool: seq<Buf>, r: System)
    requires Inv(c) && t < |s.threads| && 0 <= Room(c, pool)
    requires var k := Room(c, pool);
             var d := PostAll(c, pool[..k]);
             r == s.(core := if k > 0 then UpdateTail(d) else d, free := Rotated(pool, k),
                     threads := s.threads[t := Idle])
    ensures Ended(s, t, c, pool, 0, r)
  {
    assert Apart(s.counts, 0, 0, 0) == s.counts;
  }

  lemma MidwayNext(s0: System, t: nat, s: System, c: Core, pool: seq<Buf>, k: nat) returns (u: System)
    requires Live(s0) && Inv(c) && Midway(s, t, c, pool, k) && Alone(s0, t, s) && k < Room(c, pool)
    ensures Midway(u, t, c, pool, k + 1) && Alone(s0, t, u) && |u.threads| == |s.threads|
    ensures u == s.(core := u.core, free := u.free, threads := s.threads[t := Getting(true)],
                    counts := Apart(s.counts, -1, 1, 0))
  {
    NextPost(c, pool, k);
    AloneLive(s0, t, s);
    u := PostRound(s0, t, s, k > 0, PostAll(c, pool[..k + 1]));
    assert pool[k..][1..] == pool[k + 1..];
  }

  lemma MidwayEnds(s0: System, t: nat, s: System, c: Core, pool: seq<Buf>, k: nat) returns (r: System)
    requires Live(s0) && Inv(c) && Midway(s, t, c, pool, k) && Alone(s0, t, s) && k == Room(c, pool)
    ensures Alone(s0, t, r) && Ended(s, t, c, pool, 0, r)
  {
    if k < |pool| {
      NextPost(c, pool, k);
    }
    AloneLive(s0, t, s);
    r := LastRound(s0, t, s, PostAll(c, pool[..k]), pool, k);
    EndedFolds(s, t, c, pool, r);
  }

  lemma {:induction false} RefillLoop(s0: System, t: nat, s: System, c: Core, pool: seq<Buf>, k: nat)
    returns (r: System)
    requires Live(s0) && Inv(c) && Midway(s, t, c, pool, k) && Alone(s0, t, s)
    ensures Alone(s0, t, r) && Ended(s, t, c, pool, Room(c, pool) - k, r)
    decreases Room(c, pool) - k
  {
    if k < Room(c, pool) {
      var u := MidwayNext(s0, t, s, c, pool, k);
      r := RefillLoop(s0, t, u, c, pool, k + 1);
      OnePostMore(s, t, c, pool, Room(c, pool) - k - 1, u, r);
    } else {
      r := MidwayEnds(s0, t, s, c, pool, k);
    }
  }

  /** The refill of a thread that nothing interferes with is the refill of the driver. */
  lemma RefillIsRun(s0: System, t: nat, s: System, c: Core, pool: seq<Buf>) returns (r: System)
    requires Live(s0) && Live(s) && Inv(c) && t < |s.threads| && Alone(s0, t, s) && s.threads[t] == Getting(false)
    requires s.core == c && s.free == pool
    ensures Live(r) && Alone(s0, t, r) && Ended(s, t, c, pool, Room(c, pool), r)
  {
    assert pool[..0] == [] && pool[0..] == pool;
    RefillPosts(c, pool);
    r := RefillLoop(s0, t, s, c, pool, 0);
    AloneLive(s0, t, r);
  }

  // ---- A poll ----

  /** r is s but for the ring, the FIFOs and the counters. */
  predicate Came(s: System, r: System, p: Pools) {
    Pools(r.core, r.free, r.ready) == p && r == s.(core := r.core, free := r.free, ready := r.ready, counts := r.counts)
  }

  function Now(s: System): Pools {
    Pools(s.core, s.free, s.ready)
  }

  /** A completion is taken off the ring, and the verdict awaited. */
  lemma TakeRound(s0: System, t: nat, s: System, c: Core, rx: Buf, status: nat) returns (r: System)
    requires Live(s0) && Live(s) && t < |s.threads| && Alone(s0, t, s) && s.threads[t] == Idle
    requires Consume(s.core) == (c, Frame(rx, status)) && c.Shape()
    ensures Live(r) && Alone(s0, t, r)
    ensures r == s.(core := c, threads := s.threads[t := Polled(rx)], counts := Apart(s.counts, 0, -1, 0))
  {
    var s1 := s.(core := c, threads := s.threads[t := Taken(rx)]);
    AloneOn(s0, t, s, Poll);
    assert Advance(s, t, Poll) == s1;
    AloneOn(s0, t, s1, KeepOn);
    r := Advance(s1, t, KeepOn);
    assert r.threads == s.threads[t := Polled(rx)];
  }

  /** The frame is left to the worker. */
  lemma ReadyRound(s0: System, t: nat, s: System, rx: Buf) returns (r: System)
    requires Live(s0) && Live(s) && t < |s.threads| && Alone(s0, t, s) && s.threads[t] == Polled(rx)
    ensures Live(r) && Alone(s0, t, r)
    ensures r == s.(ready := s.ready + [rx], threads := s.threads[t := Idle], counts := Apart(s.counts, 0, 0, 1))
  {
    AloneOn(s0, t, s, KeepOn);
    var s1 := s.(threads := s.threads[t := Readying(rx)], counts := Apart(s.counts, 0, 0, 1));
    assert Advance(s, t, KeepOn) == s1;
    AloneOn(s0, t, s1, KeepOn);
    r := Advance(s1, t, KeepOn);
    assert r.threads == s.threads[t := Idle];
  }

  /** The interceptor takes it: the buffer is released. */
  lemma ReleaseRound(s0: System, t: nat, s: System, rx: Buf) returns (r: System)
    requires Live(s0) && Live(s) && t < |s.threads| && Alone(s0, t, s) && s.threads[t] == Polled(rx)
    ensures Live(r) && Alone(s0, t, r)
    ensures r == s.(free := s.free + [rx], threads := s.threads[t := Getting(false)],
                    counts := Apart(s.counts, 1, 0, 0))
  {
    AloneOn(s0, t, s, Release);
    var s1 := s.(threads := s.threads[t := Releasing(rx)]);
    assert Advance(s, t, Release) == s1;
    r := FreeRound(s0, t, s1, rx);
    assert r.threads == s.threads[t := Getting(false)];
  }

  lemma FreeRound(s0: System, t: nat, s: System, rx: Buf) returns (r: System)
    requires Live(s0) && Live(s) && t < |s.threads| && Alone(s0, t, s) && s.threads[t] == Releasing(rx)
    ensures Live(r) && Alone(s0, t, r)
    ensures r == s.(free := s.free + [rx], threads := s.threads[t := Getting(false)],
                    counts := Apart(s.counts, 1, 0, 0))
  {
    AloneOn(s0, t, s, KeepOn);
    var s1 := s.(threads := s.threads[t := Returning(rx)], counts := Apart(s.counts, 1, 0, 0));
    assert Advance(s, t, KeepOn) == s1;
    AloneOn(s0, t, s1, KeepOn);
    r := Advance(s1, t, KeepOn);
    assert r.threads == s.threads[t := Getting(false)];
  }

  lemma KeptRun(s0: System, t: nat, s: System, p: Pools, c: Core, rx: Buf) returns (r: System)
    requires Live(s0) && Live(s) && t < |s.threads| && Alone(s0, t, s) && s.threads[t] == Polled(rx)
    requires Now(s) == p.(core := c)
    ensures Live(r) && Alone(s0, t, r) && r.threads == s.threads[t := Idle]
    ensures Came(s.(threads := r.threads), r, Pools(c, p.free, p.ready + [rx]))
  {
    r := ReadyRound(s0, t, s, rx);
  }

  lemma TakenRun(s0: System, t: nat, s: System, p: Pools, c: Core, rx: Buf) returns (r: System)
    requires Live(s0) && Live(s) && t < |s.threads| && Alone(s0, t, s) && s.threads[t] == Polled(rx)
    requires Now(s) == p.(core := c) && Inv(c)
    ensures Live(r) && Alone(s0, t, r) && r.threads == s.threads[t := Idle]
    ensures var (d, free) := Refilled(c, p.free + [rx]);
            Came(s.(threads := r.threads), r, Pools(d, free, p.ready))
  {
    var u := ReleaseRound(s0, t, s, rx);
    r := RefillIsRun(s0, t, u, c, p.free + [rx]);
    assert r.threads == s.threads[t := Idle];
  }

  lemma CameBack(s: System, t: nat, u: System, x: Thread, r: System, p: Pools)
    requires t < |s.threads| && t < |u.threads| && s.threads[t] == Idle && r.threads == u.threads[t := Idle]
    requires u == s.(core := u.core, threads := s.threads[t := x], counts := u.counts)
    requires Came(u.(threads := r.threads), r, p)
    ensures Came(s, r, p)
  {
    assert r.threads == s.threads;
  }

  lemma TakenOrKept(p: Pools, intercept: Buf -> bool, c: Core, rx: Buf, status: nat)
    requires Inv(p.core) && p.core.hist.done > 0 && Consume(p.core) == (c, Frame(rx, status)) && Inv(c)
    ensures PollOnce(p, intercept) ==
            if !Received(status).1 && intercept(rx) then
              Pools(Refilled(c, p.free + [rx]).0, Refilled(c, p.free + [rx]).1, p.ready)
            else Pools(c, p.free, p.ready + [rx])
  {
  }

  /** One round of the poll. */
  lemma RoundIsRun(s0: System, t: nat, s: System, intercept: Buf -> bool) returns (r: System)
    requires Live(s0) && Live(s) && Inv(s.core) && s.core.hist.done > 0
    requires t < |s.threads| && Alone(s0, t, s) && s.threads[t] == Idle
    ensures Live(r) && Alone(s0, t, r) && Came(s, r, PollOnce(Now(s), intercept))
  {
    OldestFirst(s.core);
    var (c, result) := Consume(s.core);
    TakenOrKept(Now(s), intercept, c, result.rx, result.status);
    r := VerdictRun(s0, t, s, c, result.rx, result.status, !Received(result.status).1 && intercept(result.rx));
  }

  lemma VerdictRun(s0: System, t: nat, s: System, c: Core, rx: Buf, status: nat, taken: bool) returns (r: System)
    requires Live(s0) && Live(s) && Inv(c) && Consume(s.core) == (c, Frame(rx, status))
    requires t < |s.threads| && Alone(s0, t, s) && s.threads[t] == Idle
    ensures Live(r) && Alone(s0, t, r)
    ensures Came(s, r, if taken then Pools(Refilled(c, s.free + [rx]).0, Refilled(c, s.free + [rx]).1, s.ready)
                       else Pools(c, s.free, s.ready + [rx]))
  {
    var u := TakeRound(s0, t, s, c, rx, status);
    if taken {
      r := TakenRun(s0, t, u, Now(s), c, rx);
      CameBack(s, t, u, Polled(rx), r, Pools(Refilled(c, s.free + [rx]).0, Refilled(c, s.free + [rx]).1, s.ready));
    } else {
      r := KeptRun(s0, t, u, Now(s), c, rx);
      CameBack(s, t, u, Polled(rx), r, Pools(c, s.free, s.ready + [rx]));
    }
  }

  lemma {:induction false} RoundsAreRun(s0: System, t: nat, s: System, intercept: Buf -> bool) returns (r: System)
    requires Live(s0) && Live(s) && Inv(s.core)
    requires t < |s.threads| && Alone(s0, t, s) && s.threads[t] == Idle
    ensures Live(r) && Alone(s0, t, r) && Came(s, r, PollAll(Now(s), intercept))
    decreases s.core.hist.done
  {
    if s.core.hist.done == 0 {
      r := s;
    } else {
      var u := RoundIsRun(s0, t, s, intercept);
      r := RoundsAreRun(s0, t, u, intercept);
    }
  }

  /** The steps of one thread can make of the ring and the FIFOs what p says, and leave the rest as it is. */
  ghost predicate Makes(s: System, t: nat, p: Pools)
    requires Live(s)
  {
    exists r :: Alone(s, t, r) && Came(s, r, p)
  }

  /**
   In every state of every run an idle thread can poll, and if no other step falls between, its steps
   make of the ring, the free FIFO and the ready FIFO what the driver's poll computes.
   */
  lemma PollIsRun(n: nat, limit: nat, threads: nat, acts: seq<Action>, t: nat, intercept: Buf -> bool)
    requires 0 < n && 0 < threads
    requires var s := After(n, limit, threads, acts); t < |s.threads| && s.threads[t] == Idle
    ensures var s := After(n, limit, threads, acts);
            Inv(s.core) && Makes(s, t, WholePoll(Now(s), intercept))
  {
    AfterSafe(n, limit, threads, acts);
    var s := After(n, limit, threads, acts);
    AloneStays(s, t);
    var r := RoundsAreRun(s, t, s, intercept);
    if s.core.hist.done > 0 {
      var w := LastRefill(s, t, r, r.core, r.free);
      assert Came(s, w, WholePoll(Now(s), intercept));
    } else {
      assert Came(s, r, WholePoll(Now(s), intercept));
    }
  }

  /** The refill that an idle thread begins. */
  lemma LastRefill(s0: System, t: nat, s: System, c: Core, pool: seq<Buf>) returns (r: System)
    requires Live(s0) && Live(s) && Inv(c) && t < |s.threads| && Alone(s0, t, s) && s.threads[t] == Idle
    requires s.core == c && s.free == pool
    ensures Alone(s0, t, r) && Came(s, r, Pools(Refilled(c, pool).0, Refilled(c, pool).1, s.ready))
  {
    AloneOn(s0, t, s, Refill);
    var u := s.(threads := s.threads[t := Getting(false)]);
    assert Advance(s, t, Refill) == u;
    r := RefillIsRun(s0, t, u, c, pool);
    assert r.threads == s.threads;
  }
}
