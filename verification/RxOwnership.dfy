/**
 Where the receive buffers are. In every reachable state each buffer of the pool is in exactly one
 place, and each of the five owner counters is off by exactly the hand-offs in progress.
 */
module RxOwnership {
  import opened Wrappers
  import opened RxRing
  import opened Ledgers
  import opened RxSystem

  const ZERO := Ledger(0, 0, 0, 0, 0, 0, 0)

  function One(rx: Buf, b: Buf): int {
    if rx == b then 1 else 0
  }

  /** What a thread holds, seen from buffer b, and has entered, at each of its program points. */
  function Claim(t: Thread, b: Buf): Ledger {
    match t
    case Idle => ZERO
    case Getting(_) => ZERO
    case Holding(rx, _) => Ledger(One(rx, b), 1, 1, 0, 0, 0, 0)
    case Posted => Ledger(0, 0, 1, -1, 0, 0, 0)
    case CountedIn => Ledger(0, 0, 1, 0, 0, 0, 0)
    case PuttingBack(rx, _) => Ledger(One(rx, b), 1, 1, 0, 0, 0, 0)
    case Publishing => ZERO
    case Taken(rx) => Ledger(One(rx, b), 1, 0, 1, 0, 0, 0)
    case Polled(rx) => Ledger(One(rx, b), 1, 0, 0, 0, 0, 0)
    case Readying(rx) => Ledger(One(rx, b), 1, 0, 0, 1, 0, 0)
    case Fetched(rx) => Ledger(One(rx, b), 1, 0, 0, 1, 0, 0)
    case Claiming(rx) => Ledger(One(rx, b), 1, 0, 0, 0, 0, 0)
    case Working(rx) => Ledger(One(rx, b), 1, 0, 0, 0, 1, 0)
    case Sharing(rx) => Ledger(One(rx, b), 1, 0, 0, 0, 1, 1)
    case HandingOff(rx) => Ledger(One(rx, b), 1, 0, 0, 0, 0, 1)
    case Destroying(rx) => Ledger(One(rx, b), 1, 0, 0, 0, 0, 1)
    case Releasing(rx) => Ledger(One(rx, b), 1, 0, 0, 0, 0, 0)
    case Returning(rx) => Ledger(One(rx, b), 1, 1, 0, 0, 0, 0)
  }

  /** What the recovery work item holds and has entered. */
  function RecoveryClaim(r: Recovery, b: Buf): Ledger {
    match r
    case Orphaned(orphans) => Ledger(multiset(orphans)[b], |orphans|, 0, |orphans|, 0, 0, 0)
    case Handing(orphans) => Ledger(multiset(orphans)[b], |orphans|, 0, 0, 0, 0, 0)
    case Putting(orphans) => Ledger(multiset(orphans)[b], |orphans|, 1, 0, 0, 0, 0)
    case _ => ZERO
  }

  /** The shared places: free FIFO, ring, ready FIFO and network stack, counted as they should be. */
  function Shelf(s: System, b: Buf): Ledger {
    var ring := Recorded(s.core.ring.owner);
    Ledger(multiset(s.free)[b] + multiset(ring)[b] + multiset(s.ready)[b] + s.stack[b],
           |s.free| + |ring| + |s.ready| + |s.stack|,
           |s.free|, |ring|, |s.ready|, 0, |s.stack|)
  }

  /** What the sum must say: one place for each buffer that exists, N places in use, and the
      counters as they stand. */
  function Book(s: System, b: Buf): Ledger {
    Ledger(if b < s.core.N() then 1 else 0, s.core.N(),
           s.counts.free, s.counts.dma, s.counts.ready, s.counts.worker, s.counts.stack)
  }

  function ClaimAt(b: Buf, e: Entry): Thread -> int {
    t => Claim(t, b).At(e)
  }

  predicate BalancedBy(claim: Thread -> int, s: System, b: Buf, e: Entry) {
    Shelf(s, b).At(e) + Total(claim, s.threads) + RecoveryClaim(s.recovery, b).At(e) == Book(s, b).At(e)
  }

  predicate Balanced(s: System, b: Buf, e: Entry) {
    BalancedBy(ClaimAt(b, e), s, b, e)
  }

  // ---- Slots ----

  /** One slot's part of the recorded buffers. */
  function OneSlot(x: Option<Buf>): seq<Buf> {
    if x.Some? then [x.value] else []
  }

  lemma RecordedLast(owner: seq<Option<Buf>>, b: Buf)
    requires owner != []
    ensures var n := |owner| - 1;
            && multiset(Recorded(owner))[b] == multiset(Recorded(owner[..n]))[b] + multiset(OneSlot(owner[n]))[b]
            && |Recorded(owner)| == |Recorded(owner[..n])| + |OneSlot(owner[n])|
  {
  }

  /** Changing one slot changes the recorded buffers by exactly that slot's. */
  lemma {:induction false} RecordedUpdate(owner: seq<Option<Buf>>, i: nat, x: Option<Buf>, b: Buf)
    requires i < |owner|
    ensures multiset(Recorded(owner[i := x]))[b] + multiset(OneSlot(owner[i]))[b]
         == multiset(Recorded(owner))[b] + multiset(OneSlot(x))[b]
    ensures |Recorded(owner[i := x])| + |OneSlot(owner[i])| == |Recorded(owner)| + |OneSlot(x)|
  {
    var n := |owner| - 1;
    RecordedLast(owner, b);
    RecordedLast(owner[i := x], b);
    if i == n {
      assert owner[i := x][..n] == owner[..n];
    } else {
      assert owner[i := x][..n] == owner[..n][i := x];
      RecordedUpdate(owner[..n], i, x, b);
    }
  }

  lemma {:induction false} RecordedNone(owner: seq<Option<Buf>>)
    requires forall i :: 0 <= i < |owner| ==> owner[i].None?
    ensures Recorded(owner) == []
  {
    if owner == [] {
    } else {
      RecordedNone(owner[..|owner| - 1]);
    }
  }

  // ---- Every step keeps the books ----

  lemma {:induction false} PoolOnce(n: nat, b: Buf)
    ensures multiset(seq(n, i => i))[b] == if b < n then 1 else 0
  {
    if n == 0 {
    } else {
      assert seq(n, i => i) == seq(n - 1, i => i) + [n - 1];
      PoolOnce(n - 1, b);
    }
  }

  lemma AllFree(n: nat, b: Buf, e: Entry)
    ensures Ledger(multiset(seq(n, i => i))[b], n, n, 0, 0, 0, 0).At(e)
         == Ledger(if b < n then 1 else 0, n, n, 0, 0, 0, 0).At(e)
  {
    PoolOnce(n, b);
  }

  lemma InitBalanced(n: nat, limit: nat, threads: nat, b: Buf, e: Entry)
    requires 0 < n && 0 < threads
    ensures Balanced(Init(n, limit, threads), b, e)
  {
    var s := Init(n, limit, threads);
    assert Shelf(s, b) == Ledger(multiset(seq(n, i => i))[b], n, n, 0, 0, 0, 0) by {
      RecordedNone(s.core.ring.owner);
    }
    assert Total(ClaimAt(b, e), s.threads) == 0 by {
      TotalZero(ClaimAt(b, e), s.threads);
    }
    AllFree(n, b, e);
  }

  /** If shelf and thread together change like the book does, the books stay balanced. */
  lemma Rebalance(claim: Thread -> int, s: System, s': System, t: nat, l: Thread, b: Buf, e: Entry)
    requires BalancedBy(claim, s, b, e) && t < |s.threads|
    requires s'.threads == s.threads[t := l] && s'.recovery == s.recovery
    requires Shelf(s', b).At(e) + claim(l) - Book(s', b).At(e)
          == Shelf(s, b).At(e) + claim(s.threads[t]) - Book(s, b).At(e)
    ensures BalancedBy(claim, s', b, e)
  {
    TotalUpdate(claim, s.threads, t, l);
  }

  function Entered(d: Counts): Ledger {
    Ledger(0, 0, d.free, d.dma, d.ready, d.worker, d.stack)
  }

  lemma CountStepClaim(t: Thread, choice: Choice, b: Buf, e: Entry)
    ensures Claim(CountStep(t, choice).0, b).At(e) == Claim(t, b).At(e) + Entered(CountStep(t, choice).1).At(e)
  {
  }

  lemma CountBalanced(s: System, t: nat, choice: Choice, b: Buf, e: Entry)
    requires s.core.Shape() && t < |s.threads| && Balanced(s, b, e) && Counting(s.threads[t])
    ensures Balanced(Advance(s, t, choice), b, e)
  {
    CountStepClaim(s.threads[t], choice, b, e);
    Rebalance(ClaimAt(b, e), s, Advance(s, t, choice), t, CountStep(s.threads[t], choice).0, b, e);
  }

  /** The claim on one buffer in a place with one counter of its own. */
  function Stored(rx: Buf, b: Buf, free: int, ready: int, stack: int): Ledger {
    Ledger(One(rx, b), 1, free, 0, ready, 0, stack)
  }

  lemma PutFree(claim: Thread -> int, s: System, t: nat, l: Thread, rx: Buf, b: Buf, e: Entry)
    requires BalancedBy(claim, s, b, e) && t < |s.threads|
    requires claim(s.threads[t]) == claim(l) + Stored(rx, b, 1, 0, 0).At(e)
    ensures BalancedBy(claim, s.(free := s.free + [rx], threads := s.threads[t := l]), b, e)
  {
    Rebalance(claim, s, s.(free := s.free + [rx], threads := s.threads[t := l]), t, l, b, e);
  }

  lemma TakeFree(claim: Thread -> int, s: System, t: nat, l: Thread, b: Buf, e: Entry)
    requires BalancedBy(claim, s, b, e) && t < |s.threads| && s.free != []
    requires claim(l) == claim(s.threads[t]) + Stored(s.free[0], b, 1, 0, 0).At(e)
    ensures BalancedBy(claim, s.(free := s.free[1..], threads := s.threads[t := l]), b, e)
  {
    assert s.free == [s.free[0]] + s.free[1..];
    Rebalance(claim, s, s.(free := s.free[1..], threads := s.threads[t := l]), t, l, b, e);
  }

  lemma PutReady(claim: Thread -> int, s: System, t: nat, l: Thread, rx: Buf, b: Buf, e: Entry)
    requires BalancedBy(claim, s, b, e) && t < |s.threads|
    requires claim(s.threads[t]) == claim(l) + Stored(rx, b, 0, 1, 0).At(e)
    ensures BalancedBy(claim, s.(ready := s.ready + [rx], threads := s.threads[t := l]), b, e)
  {
    Rebalance(claim, s, s.(ready := s.ready + [rx], threads := s.threads[t := l]), t, l, b, e);
  }

  lemma TakeReady(claim: Thread -> int, s: System, t: nat, l: Thread, b: Buf, e: Entry)
    requires BalancedBy(claim, s, b, e) && t < |s.threads| && s.ready != []
    requires claim(l) == claim(s.threads[t]) + Stored(s.ready[0], b, 0, 1, 0).At(e)
    ensures BalancedBy(claim, s.(ready := s.ready[1..], threads := s.threads[t := l]), b, e)
  {
    assert s.ready == [s.ready[0]] + s.ready[1..];
    Rebalance(claim, s, s.(ready := s.ready[1..], threads := s.threads[t := l]), t, l, b, e);
  }

  lemma PutStack(claim: Thread -> int, s: System, t: nat, l: Thread, rx: Buf, b: Buf, e: Entry)
    requires BalancedBy(claim, s, b, e) && t < |s.threads|
    requires claim(s.threads[t]) == claim(l) + Stored(rx, b, 0, 0, 1).At(e)
    ensures BalancedBy(claim, s.(stack := s.stack + multiset{rx}, threads := s.threads[t := l]), b, e)
  {
    Rebalance(claim, s, s.(stack := s.stack + multiset{rx}, threads := s.threads[t := l]), t, l, b, e);
  }

  lemma TakeStack(claim: Thread -> int, s: System, t: nat, l: Thread, rx: Buf, b: Buf, e: Entry)
    requires BalancedBy(claim, s, b, e) && t < |s.threads| && rx in s.stack
    requires claim(l) == claim(s.threads[t]) + Stored(rx, b, 0, 0, 1).At(e)
    ensures BalancedBy(claim, s.(stack := s.stack - multiset{rx}, threads := s.threads[t := l]), b, e)
  {
    Rebalance(claim, s, s.(stack := s.stack - multiset{rx}, threads := s.threads[t := l]), t, l, b, e);
  }

  /** A thread moves on with what it has, and no slot changes hands. */
  lemma Pass(claim: Thread -> int, s: System, t: nat, l: Thread, core: Core, b: Buf, e: Entry)
    requires BalancedBy(claim, s, b, e) && t < |s.threads| && core.ring.owner == s.core.ring.owner
    requires claim(l) == claim(s.threads[t])
    ensures BalancedBy(claim, s.(core := core, threads := s.threads[t := l]), b, e)
  {
    Rebalance(claim, s, s.(core := core, threads := s.threads[t := l]), t, l, b, e);
  }

  /** What a slot holds, on the ring's own count. */
  function InSlot(x: Option<Buf>, b: Buf): Ledger {
    if x.None? then ZERO else Ledger(One(x.value, b), 1, 0, 1, 0, 0, 0)
  }

  /** Changing one slot changes the shelf by what that slot holds. */
  lemma SlotMoved(s: System, s': System, i: nat, x: Option<Buf>, b: Buf, e: Entry)
    requires i < |s.core.ring.owner| && s'.core.ring.owner == s.core.ring.owner[i := x]
    requires s'.free == s.free && s'.ready == s.ready && s'.stack == s.stack
    ensures Shelf(s', b).At(e) + InSlot(s.core.ring.owner[i], b).At(e) == Shelf(s, b).At(e) + InSlot(x, b).At(e)
  {
    RecordedUpdate(s.core.ring.owner, i, x, b);
  }

  /** A thread and one slot exchange a buffer. */
  lemma Exchange(claim: Thread -> int, s: System, t: nat, l: Thread, core: Core, i: nat, x: Option<Buf>,
                 b: Buf, e: Entry)
    requires BalancedBy(claim, s, b, e) && t < |s.threads| && i < |s.core.ring.owner|
    requires core.ring.owner == s.core.ring.owner[i := x]
    requires claim(l) + InSlot(x, b).At(e) == claim(s.threads[t]) + InSlot(s.core.ring.owner[i], b).At(e)
    ensures BalancedBy(claim, s.(core := core, threads := s.threads[t := l]), b, e)
  {
    var s' := s.(core := core, threads := s.threads[t := l]);
    SlotMoved(s, s', i, x, b, e);
    Rebalance(claim, s, s', t, l, b, e);
  }

  /** Posting moves a buffer from the refiller to the ring. */
  lemma PostBalanced(s: System, t: nat, rx: Buf, queued: bool, b: Buf, e: Entry)
    requires s.core.Shape() && Balanced(s, b, e) && t < |s.threads| && s.threads[t] == Holding(rx, queued)
    requires PostOne(s.core, rx).1
    ensures Balanced(s.(core := PostOne(s.core, rx).0, threads := s.threads[t := Posted]), b, e)
  {
    Exchange(ClaimAt(b, e), s, t, Posted, PostOne(s.core, rx).0, s.core.ring.refill, Some(rx), b, e);
  }

  /** Consuming moves a buffer from the ring to the poller. */
  lemma PollBalanced(s: System, t: nat, rx: Buf, b: Buf, e: Entry)
    requires s.core.Shape() && Balanced(s, b, e) && t < |s.threads| && s.threads[t].Idle?
    requires Consume(s.core).1.Frame? && Consume(s.core).1.rx == rx
    ensures Balanced(s.(core := Consume(s.core).0, threads := s.threads[t := Taken(rx)]), b, e)
  {
    Exchange(ClaimAt(b, e), s, t, Taken(rx), Consume(s.core).0, s.core.ring.consume, None, b, e);
  }

  lemma BeginBalanced(s: System, t: nat, choice: Choice, b: Buf, e: Entry)
    requires s.core.Shape() && Balanced(s, b, e) && t < |s.threads| && s.threads[t].Idle?
    ensures Balanced(Begin(s, t, choice), b, e)
  {
    match choice
    case Refill =>
      Pass(ClaimAt(b, e), s, t, Getting(false), s.core, b, e);
    case Poll =>
      if Consume(s.core).1.Frame? { PollBalanced(s, t, Consume(s.core).1.rx, b, e); }
    case Work =>
      if s.ready != [] { TakeReady(ClaimAt(b, e), s, t, Fetched(s.ready[0]), b, e); }
    case Destroy(rx) =>
      if rx in s.stack { TakeStack(ClaimAt(b, e), s, t, Destroying(rx), rx, b, e); }
    case _ =>
  }

  lemma GettingBalanced(s: System, t: nat, choice: Choice, b: Buf, e: Entry)
    requires s.core.Shape() && Balanced(s, b, e) && t < |s.threads| && s.threads[t].Getting?
    ensures Balanced(Advance(s, t, choice), b, e)
  {
    var queued := s.threads[t].queued;
    if s.free == [] {
      Pass(ClaimAt(b, e), s, t, EndRefill(queued), s.core, b, e);
    } else {
      TakeFree(ClaimAt(b, e), s, t, Holding(s.free[0], queued), b, e);
    }
  }

  lemma HoldingBalanced(s: System, t: nat, choice: Choice, b: Buf, e: Entry)
    requires s.core.Shape() && Balanced(s, b, e) && t < |s.threads| && s.threads[t].Holding?
    ensures Balanced(Advance(s, t, choice), b, e)
  {
    var rx, queued := s.threads[t].rx, s.threads[t].queued;
    if PostOne(s.core, rx).1 {
      PostBalanced(s, t, rx, queued, b, e);
    } else {
      Pass(ClaimAt(b, e), s, t, PuttingBack(rx, queued), s.core, b, e);
    }
  }

  lemma FreeBalanced(s: System, t: nat, choice: Choice, b: Buf, e: Entry)
    requires s.core.Shape() && Balanced(s, b, e) && t < |s.threads|
    requires s.threads[t].PuttingBack? || s.threads[t].Returning?
    ensures Balanced(Advance(s, t, choice), b, e)
  {
    var l := if s.threads[t].Returning? then Getting(false) else EndRefill(s.threads[t].queued);
    PutFree(ClaimAt(b, e), s, t, l, s.threads[t].rx, b, e);
  }

  lemma GiveBalanced(s: System, t: nat, choice: Choice, b: Buf, e: Entry)
    requires s.core.Shape() && Balanced(s, b, e) && t < |s.threads|
    requires s.threads[t].Publishing? || s.threads[t].Readying? || s.threads[t].HandingOff?
    ensures Balanced(Advance(s, t, choice), b, e)
  {
    match s.threads[t]
    case Publishing => Pass(ClaimAt(b, e), s, t, Idle, UpdateTail(s.core), b, e);
    case Readying(rx) => PutReady(ClaimAt(b, e), s, t, Idle, rx, b, e);
    case HandingOff(rx) => PutStack(ClaimAt(b, e), s, t, Idle, rx, b, e);
  }

  lemma AdvanceBalanced(s: System, t: nat, choice: Choice, b: Buf, e: Entry)
    requires s.core.Shape() && Balanced(s, b, e) && t < |s.threads|
    ensures Balanced(Advance(s, t, choice), b, e)
  {
    if s.threads[t].Idle? {
      BeginBalanced(s, t, choice, b, e);
    } else if Counting(s.threads[t]) {
      CountBalanced(s, t, choice, b, e);
    } else if s.threads[t].Getting? {
      GettingBalanced(s, t, choice, b, e);
    } else if s.threads[t].Holding? {
      HoldingBalanced(s, t, choice, b, e);
    } else if s.threads[t].PuttingBack? || s.threads[t].Returning? {
      FreeBalanced(s, t, choice, b, e);
    } else {
      GiveBalanced(s, t, choice, b, e);
    }
  }

  /** The rebuild turns the ring's buffers into orphans. */
  lemma RebuildBalanced(s: System, b: Buf, e: Entry)
    requires Live(s) && Balanced(s, b, e) && s.recovery.Stopped?
    ensures Balanced(RecoverStep(s), b, e)
  {
    RecordedNone(Rebuild(s.core).ring.owner);
  }

  /** Each orphan is counted out of the ring, then counted and put back into the free FIFO. */
  lemma OrphanBalanced(s: System, b: Buf, e: Entry)
    requires Live(s) && Balanced(s, b, e)
    requires s.recovery.Orphaned? || (s.recovery.Handing? && s.recovery.orphans != [])
    ensures Balanced(RecoverStep(s), b, e)
  {
  }

  /** A step that leaves every place and every counter as it is. */
  lemma Unmoved(s: System, s': System, b: Buf, e: Entry)
    requires Balanced(s, b, e) && s'.threads == s.threads && s'.counts == s.counts
    requires s'.free == s.free && s'.ready == s.ready && s'.stack == s.stack
    requires s'.core.ring.owner == s.core.ring.owner
    requires RecoveryClaim(s'.recovery, b) == RecoveryClaim(s.recovery, b)
    ensures Balanced(s', b, e)
  {
  }

  lemma FirstOrphan(orphans: seq<Buf>, b: Buf)
    requires orphans != []
    ensures multiset(orphans)[b] == One(orphans[0], b) + multiset(orphans[1..])[b]
  {
    assert orphans == [orphans[0]] + orphans[1..];
  }

  lemma OrphanClaim(orphans: seq<Buf>, b: Buf, e: Entry)
    requires orphans != []
    ensures RecoveryClaim(Putting(orphans), b).At(e)
         == RecoveryClaim(Handing(orphans[1..]), b).At(e) + Stored(orphans[0], b, 1, 0, 0).At(e)
  {
    FirstOrphan(orphans, b);
  }

  lemma FreeShelf(s: System, s': System, rx: Buf, b: Buf, e: Entry)
    requires s' == s.(free := s.free + [rx], recovery := s'.recovery)
    ensures Shelf(s', b).At(e) == Shelf(s, b).At(e) + Stored(rx, b, 1, 0, 0).At(e)
  {
  }

  lemma OrphanFreed(s: System, b: Buf, e: Entry)
    requires Live(s) && Balanced(s, b, e)
    requires s.recovery.Putting? && s.recovery.orphans != []
    ensures Balanced(RecoverStep(s), b, e)
  {
    OrphanClaim(s.recovery.orphans, b, e);
    FreeShelf(s, RecoverStep(s), s.recovery.orphans[0], b, e);
  }

  lemma RecoveryRefills(s: System, b: Buf, e: Entry)
    requires Live(s) && Balanced(s, b, e)
    requires s.recovery.Handing? && s.recovery.orphans == []
    ensures Balanced(RecoverStep(s), b, e)
  {
    if s.threads[0].Idle? {
      Pass(ClaimAt(b, e), s, 0, Getting(false), s.core, b, e);
      Unmoved(s.(threads := s.threads[0 := Getting(false)]), RecoverStep(s), b, e);
    }
  }

  /** Resetting and arming the engine moves no buffer. */
  lemma RegistersBalanced(s: System, b: Buf, e: Entry)
    requires Live(s) && Balanced(s, b, e)
    requires s.recovery.Quiet? || s.recovery.Refilling? || s.recovery.Reset? || s.recovery.Aimed?
             || s.recovery.Running? || (s.recovery.Putting? && s.recovery.orphans == [])
    ensures Balanced(RecoverStep(s), b, e)
  {
    Unmoved(s, RecoverStep(s), b, e);
  }

  lemma RecoverBalanced(s: System, b: Buf, e: Entry)
    requires Live(s) && Balanced(s, b, e)
    ensures Balanced(RecoverStep(s), b, e)
  {
    match s.recovery
    case Stopped => RebuildBalanced(s, b, e);
    case Orphaned(_) => OrphanBalanced(s, b, e);
    case Handing(orphans) => if orphans == [] { RecoveryRefills(s, b, e); } else { OrphanBalanced(s, b, e); }
    case Putting(orphans) => if orphans == [] { RegistersBalanced(s, b, e); } else { OrphanFreed(s, b, e); }
    case _ => RegistersBalanced(s, b, e);
  }

  lemma StepBalanced(s: System, a: Action, b: Buf, e: Entry)
    requires Live(s) && Balanced(s, b, e)
    ensures Balanced(Step(s, a), b, e)
  {
    match a
    case Act(t, choice) => if t < |s.threads| { AdvanceBalanced(s, t, choice, b, e); }
    case Recover => RecoverBalanced(s, b, e);
    case _ =>
  }
}
