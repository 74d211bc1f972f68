/** Every step of RxRing keeps its invariant, and what the invariant buys. */
module RxRingProofs {
  import opened Modular
  import opened Wrappers
  import opened BdStatus
  import opened RxRing

  // ---- Driver steps ----

  lemma PostOneWindow(c: Core, rx: Buf)
    requires c.Shape() && Window(c)
    ensures var c' := PostOne(c, rx).0; c'.Shape() && Window(c')
    ensures PostOne(c, rx).1 <==> c.ring.posted < c.N() && c.ring.posted < c.limit
  {
    var c' := PostOne(c, rx).0;
    assert c.Off(c.ring.refill) == if c.ring.posted < c.N() then c.ring.posted else 0;
    if PostOne(c, rx).1 {
      assert forall i :: 0 <= i < c.N() && i != c.ring.refill ==>
        c'.ring.bd[i] == c.ring.bd[i] && c'.ring.owner[i] == c.ring.owner[i] && c'.Off(i) == c.Off(i);
    }
  }

  lemma PostOneKeepsInv(c: Core, rx: Buf)
    requires Inv(c)
    ensures Inv(PostOne(c, rx).0)
    ensures PostOne(c, rx).1 <==> c.ring.posted < c.N() && c.ring.posted < c.limit
  {
    PostOneWindow(c, rx);
    var n := c.N();
    var c' := PostOne(c, rx).0;
    assert c'.ring.refill == if PostOne(c, rx).1 then Next(c.hist.posts % n, n) else c.ring.refill;
    NextMod(c.hist.posts, n);
  }

  /** Publishing the newest slot keeps the engine inside the window. */
  lemma PublishInStep(c: Core)
    requires c.Shape() && Window(c) && EngineInStep(c) && c.hist.done <= c.ring.posted
    requires c.hist.posts > 0 ==> Next(c.ring.tail, c.N()) == c.ring.refill
    requires c.hist.posts == 0 ==> c.ring.posted == 0 && c.ring.tail == 0
    ensures EngineInStep(WriteTail(c, c.ring.tail))
  {
    if c.engine.run && c.hist.posts > 0 {
      assert c.ring.posted > 0 ==> c.Off(c.ring.tail) == c.ring.posted - 1;
      if c.engine.caught && c.engine.tail != Some(c.ring.tail) {
        assert c.hist.done != c.ring.posted;
      }
    }
  }

  lemma PublishLogged(c: Core)
    requires c.Shape() && TailsForward(c)
    requires c.ring.tail == if c.hist.posts == 0 then 0 else (c.hist.posts - 1) % c.N()
    ensures TailsForward(WriteTail(c, c.ring.tail))
  {
  }

  lemma UpdateTailKeepsInv(c: Core)
    requires Inv(c)
    ensures Inv(UpdateTail(c))
  {
    PublishInStep(c);
    if c.ring.started {
      PublishLogged(c);
    }
  }

  /** A frame can be taken only if a completion is waiting. */
  lemma ConsumeTakesCompletion(c: Core)
    requires c.Shape() && Window(c) && Statuses(c) && c.ring.posted <= c.hist.posts
    ensures Consume(c).1.Frame? <==> c.hist.done > 0
    ensures Consume(c).1.NoBuffer? ==> c.hist.posts == 0 && !c.engine.run
  {
  }

  /** Retiring the oldest slot shifts the window, and the completions, by one. */
  lemma ConsumeWindow(c: Core)
    requires c.Shape() && Window(c) && Statuses(c) && Consume(c).1.Frame? && c.hist.done > 0
    ensures var c' := Consume(c).0; c'.Shape() && Window(c') && Statuses(c')
  {
    var c' := Consume(c).0;
    forall i | 0 <= i < c.N()
      ensures c'.Off(i) == if i == c.ring.consume then c.N() - 1 else c.Off(i) - 1
    {
    }
  }

  /** The engine stands where it did, one place nearer to the consume index. */
  lemma ConsumeInStep(c: Core)
    requires Inv(c) && Consume(c).1.Frame? && c.hist.done > 0
    ensures EngineInStep(Consume(c).0)
  {
    var c' := Consume(c).0;
    assert c.engine.tail.Some? && c.engine.tail.value != c.ring.consume ==>
      c'.Off(c.engine.tail.value) == c.Off(c.engine.tail.value) - 1;
  }

  lemma ConsumeKeepsInv(c: Core)
    requires Inv(c)
    ensures Inv(Consume(c).0)
  {
    ConsumeTakesCompletion(c);
    if Consume(c).1.Frame? {
      ConsumeWindow(c);
      ConsumeInStep(c);
    }
  }

  lemma ResetEngineKeepsInv(c: Core)
    requires Inv(c)
    ensures Inv(ResetEngine(c))
  {
  }

  lemma RebuildKeepsInv(c: Core)
    requires Inv(c) && !c.engine.run
    ensures Inv(Rebuild(c))
  {
  }

  lemma ArmCurrentKeepsInv(c: Core)
    requires Inv(c) && !c.engine.run
    ensures Inv(ArmCurrent(c))
  {
  }

  lemma ArmRunKeepsInv(c: Core)
    requires Inv(c) && !c.ring.started && c.engine == Engine(false, c.ring.consume, None, false)
    requires c.hist.tails == []
    ensures Inv(ArmRun(c))
  {
  }

  lemma ArmStartKeepsInv(c: Core)
    requires Inv(c) && !c.ring.started && c.hist.tails == []
    requires c.engine.tail.None? && !c.engine.caught
    ensures Inv(ArmStart(c))
  {
  }

  /** The whole arming sequence, from any stopped ring. */
  lemma ArmKeepsInv(c: Core)
    requires Inv(c) && !c.ring.started
    ensures Inv(ArmStart(ArmRun(ArmCurrent(ResetEngine(c)))))
  {
    ResetEngineKeepsInv(c);
    ArmCurrentKeepsInv(ResetEngine(c));
    ArmRunKeepsInv(ArmCurrent(ResetEngine(c)));
    ArmStartKeepsInv(ArmRun(ArmCurrent(ResetEngine(c))));
  }

  /** Arming leaves the ring and its queue as they are. */
  lemma ArmKeepsQueue(c: Core)
    requires Inv(c) && !c.ring.started
    ensures var c' := ArmStart(ArmRun(ArmCurrent(ResetEngine(c))));
            c'.Shape() && Window(c') && Queue(c') == Queue(c) && c'.hist.done == 0
            && c'.ring.started && c'.engine.run && (Fetching(c') <==> c.ring.posted > 0)
  {
  }

  // ---- Engine steps ----

  /** A fetch is inside the window, at the slot after the completions, unless the tail is stale. */
  lemma FetchInWindow(c: Core)
    requires Inv(c) && Fetching(c)
    ensures StaleTail(c) <==> ZeroLength(c)
    ensures !StaleTail(c) ==> c.Off(c.engine.cur) == c.hist.done < c.ring.posted
  {
  }

  lemma CompleteInStep(c: Core, status: nat)
    requires c.Shape() && Window(c) && Statuses(c) && EngineInStep(c)
    requires Fetching(c) && !ZeroLength(c) && Finished(status) && !StaleTail(c)
    requires c.Off(c.engine.cur) == c.hist.done < c.ring.posted <= c.hist.posts
    ensures var c' := Complete(c, status); c'.Shape() && Window(c') && Statuses(c') && EngineInStep(c')
  {
  }

  lemma CompleteKeepsInv(c: Core, status: nat)
    requires Inv(c) && Fetching(c) && !ZeroLength(c) && Finished(status)
    ensures Inv(Complete(c, status))
  {
    FetchInWindow(c);
    CompleteInStep(c, status);
  }

  lemma RejectKeepsInv(c: Core, status: nat)
    requires Inv(c) && Fetching(c) && ZeroLength(c)
    ensures Inv(Reject(c, status))
  {
  }

  lemma HaltKeepsInv(c: Core)
    requires Inv(c)
    ensures Inv(Halt(c))
  {
  }

  // ---- What the invariant buys ----

  /** The window in the modular form the code computes with, at the k-th slot from the consume index. */
  ghost predicate WindowOf(c: Core, n: nat, limit: nat, k: nat)
    requires k < n
  {
    var r := c.ring;
    var i := (r.consume + k) % n;
    && |r.owner| == |r.bd| == n && 0 <= i < n
    && r.posted == r.inflight <= n && r.posted <= limit
    && r.refill == (r.consume + r.posted) % n
    && (r.owner[i].Some? <==> k < r.posted)
    && (r.posted > 0 ==> (r.tail + 1) % n == r.refill)
    && (k >= r.posted ==> r.bd[i].status == 0 || (i == 0 == c.hist.posts && !c.engine.run))
  }

  lemma SlotModular(c: Core, k: nat)
    requires c.Shape() && Window(c) && k < c.N()
    ensures (c.ring.consume + k) % c.N() == At(c, k)
    ensures c.ring.owner[At(c, k)].Some? <==> k < c.ring.posted
    ensures c.ring.refill == (c.ring.consume + c.ring.posted) % c.N()
  {
    AddIsMod(c.ring.consume, c.ring.posted, c.N());
    AddIsMod(c.ring.consume, k, c.N());
  }

  lemma WindowModular(c: Core, k: nat)
    requires Inv(c) && k < c.N()
    ensures WindowOf(c, c.N(), c.limit, k)
  {
    SlotModular(c, k);
    AddIsMod(c.ring.tail, 0, c.N());
  }

  lemma TailsOrdered(c: Core, j: nat, k: nat)
    requires TailsForward(c) && j <= k < |c.hist.tails|
    ensures c.N() > 0 && TailsInOrder(c.hist, c.N(), j, k)
  {
  }

  /** Two TAILDESC writes in posting order, the later one naming the newest post of its time. */
  ghost predicate TailsInOrder(h: History, n: nat, j: nat, k: nat)
    requires 0 < n && j <= k < |h.tails|
  {
    && h.tails[j].posts <= h.tails[k].posts <= h.posts
    && h.tails[k].slot == if h.tails[k].posts == 0 then 0 else (h.tails[k].posts - 1) % n
  }

  /** S2MM only ever writes a buffer that the driver has recorded for the slot. */
  lemma WritesRecordedBuffer(c: Core)
    requires Inv(c) && Fetching(c) && !ZeroLength(c)
    ensures c.ring.owner[c.engine.cur].Some?
    ensures c.ring.bd[c.engine.cur].address == c.ring.owner[c.engine.cur]
    ensures c.ring.bd[c.engine.cur].status == 0
  {
  }

  /** The scatter-gather rule holds exactly when the tail is not a stale one. */
  lemma CoveredUnlessStale(c: Core)
    requires Inv(c) && Fetching(c)
    ensures TailCovered(c) <==> !StaleTail(c)
  {
  }

  /** emz_rx_direct_update_tail keeps the scatter-gather rule exactly when it does not publish on
      an armed ring that is empty and untailed, which the posted > 0 test in arm rules out there. */
  lemma UpdateTailCovered(c: Core)
    requires Inv(c) && TailCovered(c)
    ensures TailCovered(UpdateTail(c)) <==> !EmptyPublication(c)
  {
    UpdateTailKeepsInv(c);
    var c' := UpdateTail(c);
    if Fetching(c') {
      CoveredUnlessStale(c');
      if Fetching(c) {
        CoveredUnlessStale(c);
      }
    }
  }

  /** Arming never publishes a tail on an empty ring, and never breaks the scatter-gather rule. */
  lemma ArmStartCovered(c: Core)
    requires Inv(c) && !c.ring.started && c.hist.tails == []
    requires c.engine.tail.None? && !c.engine.caught
    ensures TailCovered(ArmStart(c))
    ensures ArmStart(c).engine.tail.Some? <==> c.ring.posted > 0
  {
  }

  /** The published tail names the newest posted slot, the slot of post number `posts`. */
  lemma PublishesNewest(c: Core, rx: Buf)
    requires Inv(c) && c.ring.started && PostOne(c, rx).1
    ensures var c' := UpdateTail(PostOne(c, rx).0);
            && c'.engine.tail == Some(c.hist.posts % c.N())
            && c'.hist.tails[|c'.hist.tails| - 1] == TailWrite(c.hist.posts % c.N(), c.hist.posts + 1)
            && c'.ring.owner[c.hist.posts % c.N()] == Some(rx)
  {
  }

  /** A publication opens every posted descriptor not yet processed, unless the engine is parked
      and all N descriptors were posted since: the tail then has the value it had before. */
  lemma PublicationOpensAll(c: Core)
    requires Inv(c) && c.ring.started && c.engine.run && c.hist.posts > 0
    ensures var c' := UpdateTail(c);
            var pending := c.ring.posted - c.hist.done;
            (Fetching(c') && Ahead(c.engine.cur, c'.engine.tail.value, c.N()) == pending - 1)
            <==> pending > 0 && !(c.engine.caught && pending == c.N())
  {
  }

  /** Such a publication makes the engine fetch a descriptor without a length, and if the engine
      flags the error in its status, the next poll finds a completion without a buffer. */
  lemma EmptyPublicationRejected(c: Core)
    requires Inv(c) && EmptyPublication(c)
    ensures Inv(UpdateTail(c)) && Fetching(UpdateTail(c)) && ZeroLength(UpdateTail(c))
    ensures Consume(Reject(UpdateTail(c), TWO28)).1.NoBuffer?
  {
  }

  // ---- The ring is a FIFO of buffers ----

  /** Posting adds at the back. */
  lemma PostEnqueues(c: Core, rx: Buf)
    requires c.Shape() && Window(c) && PostOne(c, rx).1
    ensures var c' := PostOne(c, rx).0; Window(c') && Queue(c') == Queue(c) + [rx]
  {
    PostOneWindow(c, rx);
    var c' := PostOne(c, rx).0;
    forall k | 0 <= k < c'.ring.posted
      ensures Queue(c')[k] == (Queue(c) + [rx])[k]
    {
      assert At(c', k) == At(c, k);
    }
  }

  /** The slots of a window that starts one place further on. */
  lemma NextAt(c: Core, d: Core, k: nat)
    requires c.Shape() && d.Shape() && d.N() == c.N() && d.ring.consume == Next(c.ring.consume, c.N())
    requires k + 1 < c.N()
    ensures At(d, k) == At(c, k + 1) != c.ring.consume
  {
  }

  lemma QueueTail(c: Core, d: Core)
    requires c.Shape() && Window(c) && d.Shape() && Window(d) && c.ring.posted > 0 && d.N() == c.N()
    requires d.ring.consume == Next(c.ring.consume, c.N()) && d.ring.posted == c.ring.posted - 1
    requires d.ring.owner == c.ring.owner[c.ring.consume := None]
    ensures c.ring.owner[c.ring.consume].Some?
    ensures Queue(c) == [c.ring.owner[c.ring.consume].value] + Queue(d)
  {
    assert At(c, 0) == c.ring.consume;
    forall k | 0 <= k < d.ring.posted
      ensures Queue(d)[k] == Queue(c)[k + 1]
    {
      NextAt(c, d, k);
    }
  }

  /** Consuming removes at the front: buffers come back in the order in which they were posted. */
  lemma ConsumeDequeues(c: Core)
    requires Inv(c) && Consume(c).1.Frame?
    ensures var c' := Consume(c).0;
            Window(c') && Queue(c) == [Consume(c).1.rx] + Queue(c')
  {
    ConsumeTakesCompletion(c);
    ConsumeWindow(c);
    QueueTail(c, Consume(c).0);
  }

  lemma {:induction false} PostAllKeepsInv(c: Core, bufs: seq<Buf>)
    requires Inv(c)
    ensures Inv(PostAll(c, bufs))
    decreases |bufs|
  {
    if bufs == [] {
    } else {
      PostAllKeepsInv(c, bufs[..|bufs| - 1]);
      PostOneKeepsInv(PostAll(c, bufs[..|bufs| - 1]), bufs[|bufs| - 1]);
    }
  }

  lemma PostAllStep(c: Core, bufs: seq<Buf>, k: nat)
    requires c.Shape() && k < |bufs|
    ensures PostAll(c, bufs[..k + 1]) == PostOne(PostAll(c, bufs[..k]), bufs[k]).0
  {
    assert bufs[..k + 1][..k] == bufs[..k];
  }

  lemma AppendLast(q: seq<Buf>, bufs: seq<Buf>)
    requires bufs != []
    ensures q + bufs == q + bufs[..|bufs| - 1] + [bufs[|bufs| - 1]]
  {
  }

  /** What posting several buffers leaves as it is, and how many it counts. */
  lemma {:induction false} PostAllBeside(c: Core, bufs: seq<Buf>)
    requires c.Shape() && Window(c)
    requires c.ring.posted + |bufs| <= c.N() && c.ring.posted + |bufs| <= c.limit
    ensures var d := PostAll(c, bufs);
            && Window(d) && d.ring.posted == c.ring.posted + |bufs| && d.hist.posts == c.hist.posts + |bufs|
            && d.ring.started == c.ring.started && d.hist.tails == c.hist.tails && d.hist.done == c.hist.done
    decreases |bufs|
  {
    if bufs == [] {
    } else {
      PostAllBeside(c, bufs[..|bufs| - 1]);
      PostOneWindow(PostAll(c, bufs[..|bufs| - 1]), bufs[|bufs| - 1]);
    }
  }

  /** As many buffers as there is room for are posted, in the order given. */
  lemma {:induction false} PostAllEnqueues(c: Core, bufs: seq<Buf>)
    requires c.Shape() && Window(c)
    requires c.ring.posted + |bufs| <= c.N() && c.ring.posted + |bufs| <= c.limit
    ensures var d := PostAll(c, bufs);
            && Window(d) && Queue(d) == Queue(c) + bufs && d.hist.posts == c.hist.posts + |bufs|
            && d.ring.started == c.ring.started && d.hist.tails == c.hist.tails && d.hist.done == c.hist.done
    decreases |bufs|
  {
    PostAllBeside(c, bufs);
    if bufs == [] {
      assert Queue(c) + bufs == Queue(c);
    } else {
      var n := |bufs| - 1;
      PostAllEnqueues(c, bufs[..n]);
      var before := PostAll(c, bufs[..n]);
      PostAllBeside(c, bufs[..n]);
      PostOneWindow(before, bufs[n]);
      PostEnqueues(before, bufs[n]);
      AppendLast(Queue(c), bufs);
    }
  }

  /** Posting leaves the completions alone. */
  lemma PostKeepsCompletions(c: Core, rx: Buf)
    requires c.Shape() && Window(c) && c.hist.done <= c.ring.posted
    ensures Completions(PostOne(c, rx).0) == Completions(c)
  {
  }

  lemma {:induction false} PostAllKeepsCompletions(c: Core, bufs: seq<Buf>)
    requires Inv(c)
    ensures PostAll(c, bufs).hist.done == c.hist.done && Completions(PostAll(c, bufs)) == Completions(c)
    decreases |bufs|
  {
    if bufs == [] {
    } else {
      PostAllKeepsCompletions(c, bufs[..|bufs| - 1]);
      PostAllKeepsInv(c, bufs[..|bufs| - 1]);
      PostKeepsCompletions(PostAll(c, bufs[..|bufs| - 1]), bufs[|bufs| - 1]);
    }
  }

  lemma RefillKeepsCompletions(c: Core, bufs: seq<Buf>)
    requires Inv(c)
    ensures var c' := UpdateTail(PostAll(c, bufs));
            c'.Shape() && c'.hist.done == c.hist.done && Completions(c') == Completions(c)
  {
    PostAllKeepsCompletions(c, bufs);
    var c' := PostAll(c, bufs);
    assert forall k :: 0 <= k < c.hist.done ==> At(UpdateTail(c'), k) == At(c', k);
  }

  /** Consuming takes the oldest completion. */
  lemma ConsumeTakesOldest(c: Core)
    requires Inv(c) && Consume(c).1.Frame?
    ensures var c' := Consume(c).0;
            c'.hist.done == c.hist.done - 1
            && Completions(c) == [(Some(Consume(c).1.rx), Consume(c).1.status)] + Completions(c')
  {
    ConsumeTakesCompletion(c);
    var c' := Consume(c).0;
    assert At(c, 0) == c.ring.consume;
    forall k | 0 <= k < c'.hist.done
      ensures Completions(c')[k] == Completions(c)[k + 1]
    {
      NextAt(c, c', k);
    }
  }

  // ---- Clean runs ----

  lemma CleanHasNoOrphanCompletion(c: Core)
    requires Clean(c)
    ensures !Consume(c).1.NoBuffer?
    ensures TailCovered(c)
    ensures Fetching(c) ==> !ZeroLength(c)
  {
    assert c.Off(c.ring.consume) == 0;
    if Fetching(c) {
      CoveredUnlessStale(c);
      FetchInWindow(c);
    }
  }

  lemma PostOneClean(c: Core, rx: Buf)
    requires Clean(c)
    ensures Clean(PostOne(c, rx).0)
  {
    PostOneKeepsInv(c, rx);
  }

  lemma UpdateTailClean(c: Core)
    requires Clean(c) && !EmptyPublication(c)
    ensures Clean(UpdateTail(c))
  {
    UpdateTailKeepsInv(c);
  }

  lemma ConsumeClean(c: Core)
    requires Clean(c)
    ensures Clean(Consume(c).0)
  {
    ConsumeKeepsInv(c);
    ConsumeTakesCompletion(c);
    var c' := Consume(c).0;
    forall i | Consume(c).1.Frame? && 0 <= i < c.N()
      ensures c'.Off(i) == if i == c.ring.consume then c.N() - 1 else c.Off(i) - 1
    {
    }
  }

  lemma CompleteClean(c: Core, status: nat)
    requires Clean(c) && Fetching(c) && !ZeroLength(c) && Finished(status)
    ensures Clean(Complete(c, status))
  {
    CompleteKeepsInv(c, status);
    FetchInWindow(c);
  }
}
