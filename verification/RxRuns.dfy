/**
 The receive path over whole runs: what holds after any sequence of steps from initialisation,
 for any pool size, posting limit and number of threads.
 */
module RxRuns {
  import opened BdStatus
  import opened RxRing
  import opened RxRingProofs
  import opened Ledgers
  import opened RxSystem
  import opened RxOwnership

  function Run(s: System, acts: seq<Action>): (r: System)
    requires Live(s)
    ensures Live(r)
  {
    if acts == [] then s
    else
      var before := Run(s, acts[..|acts| - 1]);
      StepLive(before, acts[|acts| - 1]);
      Step(before, acts[|acts| - 1])
  }

  /** The state after a run from initialisation. */
  function After(n: nat, limit: nat, threads: nat, acts: seq<Action>): (r: System)
    requires 0 < n && 0 < threads
    ensures Live(r)
  {
    Run(Init(n, limit, threads), acts)
  }

  lemma {:induction false} RunSafe(s: System, acts: seq<Action>)
    requires Safe(s)
    ensures Safe(Run(s, acts))
  {
    if acts == [] {
    } else {
      RunSafe(s, acts[..|acts| - 1]);
      StepSafe(Run(s, acts[..|acts| - 1]), acts[|acts| - 1]);
    }
  }

  /** The invariant of the ring and of the recovery phases holds after every run. */
  lemma AfterSafe(n: nat, limit: nat, threads: nat, acts: seq<Action>)
    requires 0 < n && 0 < threads
    ensures Safe(After(n, limit, threads, acts))
  {
    InitSafe(n, limit, threads);
    RunSafe(Init(n, limit, threads), acts);
  }

  lemma {:induction false} SizesKept(n: nat, limit: nat, threads: nat, acts: seq<Action>)
    requires 0 < n && 0 < threads
    ensures var s := After(n, limit, threads, acts); s.core.N() == n && s.core.limit == limit
  {
    if acts == [] {
    } else {
      SizesKept(n, limit, threads, acts[..|acts| - 1]);
      StepSizes(After(n, limit, threads, acts[..|acts| - 1]), acts[|acts| - 1]);
    }
  }

  /** Every transfer the engine starts goes to the buffer recorded in rx_bd_buffer for the slot,
      into a descriptor whose completion has not been reported yet. */
  lemma DmaSafety(n: nat, limit: nat, threads: nat, acts: seq<Action>)
    requires 0 < n && 0 < threads
    ensures var c := After(n, limit, threads, acts).core;
            Fetching(c) && !ZeroLength(c) ==>
              && c.ring.owner[c.engine.cur].Some?
              && c.ring.bd[c.engine.cur].address == c.ring.owner[c.engine.cur]
              && c.ring.bd[c.engine.cur].status == 0
  {
    AfterSafe(n, limit, threads, acts);
    var c := After(n, limit, threads, acts).core;
    if Fetching(c) && !ZeroLength(c) {
      WritesRecordedBuffer(c);
    }
  }

  /** The recorded slots are the `posted` slots from the consume index on, modulo N, and every other slot has a
      clear status, but for slot 0 after the engine rejected it on a ring that nothing was posted to. */
  lemma RingWindow(n: nat, limit: nat, threads: nat, acts: seq<Action>, k: nat)
    requires 0 < n && 0 < threads && k < n
    ensures WindowOf(After(n, limit, threads, acts).core, n, limit, k)
  {
    AfterSafe(n, limit, threads, acts);
    SizesKept(n, limit, threads, acts);
    WindowModular(After(n, limit, threads, acts).core, k);
  }

  /** Between two resets of the engine the TAILDESC writes follow posting order, and each names the
      slot of the newest post (slot 0 if nothing was posted yet). */
  lemma TailMonotonic(n: nat, limit: nat, threads: nat, acts: seq<Action>, j: nat, k: nat)
    requires 0 < n && 0 < threads
    requires var c := After(n, limit, threads, acts).core; c.ring.started && j <= k < |c.hist.tails|
    ensures TailsInOrder(After(n, limit, threads, acts).core.hist, n, j, k)
  {
    AfterSafe(n, limit, threads, acts);
    SizesKept(n, limit, threads, acts);
    TailsOrdered(After(n, limit, threads, acts).core, j, k);
  }

  // ---- Ownership ----

  lemma {:induction false} RunBalanced(s: System, acts: seq<Action>, b: Buf, e: Entry)
    requires Live(s) && Balanced(s, b, e)
    ensures Balanced(Run(s, acts), b, e)
  {
    if acts == [] {
    } else {
      RunBalanced(s, acts[..|acts| - 1], b, e);
      StepBalanced(Run(s, acts[..|acts| - 1]), acts[|acts| - 1], b, e);
    }
  }

  /** How many places refer to buffer b: FIFOs, ring, stack, threads and recovery. */
  function Places(s: System, b: Buf): int {
    multiset(s.free)[b] + multiset(Recorded(s.core.ring.owner))[b] + multiset(s.ready)[b] + s.stack[b]
    + Total(ClaimAt(b, Mine), s.threads)
    + match s.recovery
      case Orphaned(orphans) => multiset(orphans)[b]
      case Handing(orphans) => multiset(orphans)[b]
      case Putting(orphans) => multiset(orphans)[b]
      case _ => 0
  }

  /** Each buffer of the pool is in exactly one place, and nothing else is anywhere. */
  lemma OnePlace(n: nat, limit: nat, threads: nat, acts: seq<Action>, b: Buf)
    requires 0 < n && 0 < threads
    ensures Places(After(n, limit, threads, acts), b) == if b < n then 1 else 0
  {
    InitBalanced(n, limit, threads, b, Mine);
    RunBalanced(Init(n, limit, threads), acts, b, Mine);
    SizesKept(n, limit, threads, acts);
  }

  /** What a thread in the middle of a hand-off adds to the sum of the owner counters: it has
      counted the buffer in its new place and not yet out of the old one, or the other way round. */
  function Drift(t: Thread): int {
    match t
    case CountedIn => 1
    case Sharing(_) => 1
    case Polled(_) => -1
    case Claiming(_) => -1
    case Releasing(_) => -1
    case _ => 0
  }

  function RecoveryDrift(r: Recovery): int {
    match r
    case Handing(orphans) => -|orphans|
    case Putting(orphans) => 1 - |orphans|
    case _ => 0
  }

  lemma DriftOfClaim(t: Thread, b: Buf)
    ensures var c := Claim(t, b); Drift(t) == c.free + c.dma + c.ready + c.worker + c.stack - c.size
  {
  }

  lemma {:induction false} TotalDrift(ts: seq<Thread>, b: Buf)
    ensures Total(Drift, ts)
         == Total(ClaimAt(b, Free), ts) + Total(ClaimAt(b, Dma), ts) + Total(ClaimAt(b, Ready), ts)
            + Total(ClaimAt(b, Worker), ts) + Total(ClaimAt(b, Stack), ts) - Total(ClaimAt(b, Size), ts)
  {
    if ts == [] {
    } else {
      TotalDrift(ts[..|ts| - 1], b);
      DriftOfClaim(ts[|ts| - 1], b);
    }
  }

  lemma AfterBalanced(n: nat, limit: nat, threads: nat, acts: seq<Action>, e: Entry)
    requires 0 < n && 0 < threads
    ensures Balanced(After(n, limit, threads, acts), 0, e)
  {
    InitBalanced(n, limit, threads, 0, e);
    RunBalanced(Init(n, limit, threads), acts, 0, e);
  }

  function CountSum(c: Counts): int {
    c.free + c.dma + c.ready + c.worker + c.stack
  }

  lemma SumOfBooks(s: System)
    requires Balanced(s, 0, Free) && Balanced(s, 0, Dma) && Balanced(s, 0, Ready)
    requires Balanced(s, 0, Worker) && Balanced(s, 0, Stack) && Balanced(s, 0, Size)
    ensures CountSum(s.counts) == s.core.N() + Total(Drift, s.threads) + RecoveryDrift(s.recovery)
  {
    TotalDrift(s.threads, 0);
  }

  /** The sum of the five owner counters is N plus the drift of the hand-offs in progress. */
  lemma OwnerSum(n: nat, limit: nat, threads: nat, acts: seq<Action>)
    requires 0 < n && 0 < threads
    ensures var s := After(n, limit, threads, acts);
            CountSum(s.counts) == n + Total(Drift, s.threads) + RecoveryDrift(s.recovery)
  {
    SizesKept(n, limit, threads, acts);
    AfterBalanced(n, limit, threads, acts, Free);
    AfterBalanced(n, limit, threads, acts, Dma);
    AfterBalanced(n, limit, threads, acts, Ready);
    AfterBalanced(n, limit, threads, acts, Worker);
    AfterBalanced(n, limit, threads, acts, Stack);
    AfterBalanced(n, limit, threads, acts, Size);
    SumOfBooks(After(n, limit, threads, acts));
  }

  /** The threads that are in the middle of a hand-off. */
  function MidHandOff(ts: seq<Thread>): int {
    if ts == [] then 0
    else MidHandOff(ts[..|ts| - 1]) + if Drift(ts[|ts| - 1]) == 0 then 0 else 1
  }

  lemma {:induction false} DriftBound(ts: seq<Thread>)
    ensures -MidHandOff(ts) <= Total(Drift, ts) <= MidHandOff(ts)
  {
    if ts == [] {
    } else {
      DriftBound(ts[..|ts| - 1]);
    }
  }

  /** Outside recovery the sum is off by at most one for each hand-off in progress. */
  lemma OwnerSumBound(n: nat, limit: nat, threads: nat, acts: seq<Action>)
    requires 0 < n && 0 < threads
    requires RecoveryDrift(After(n, limit, threads, acts).recovery) == 0
    ensures var s := After(n, limit, threads, acts);
            n - MidHandOff(s.threads) <= CountSum(s.counts) <= n + MidHandOff(s.threads)
  {
    OwnerSum(n, limit, threads, acts);
    DriftBound(After(n, limit, threads, acts).threads);
  }

  // ---- The completion without a buffer ----

  lemma {:induction false} RunClean(s: System, acts: seq<Action>)
    requires Safe(s) && Clean(s.core)
    requires forall k :: 0 <= k < |acts| ==> !PublishesEmpty(Run(s, acts[..k]), acts[k])
    ensures Clean(Run(s, acts).core)
  {
    if acts == [] {
    } else {
      var before := acts[..|acts| - 1];
      assert forall k :: 0 <= k < |before| ==> before[..k] == acts[..k];
      RunClean(s, before);
      RunSafe(s, before);
      StepClean(Run(s, before), acts[|acts| - 1]);
    }
  }

  /** A run in which no refiller publishes on an armed, empty, untailed ring never reaches the branch
      for a completion without a buffer, and keeps the scatter-gather rule throughout. */
  lemma NoOrphanCompletion(n: nat, limit: nat, threads: nat, acts: seq<Action>)
    requires 0 < n && 0 < threads
    requires forall k :: 0 <= k < |acts| ==> !PublishesEmpty(After(n, limit, threads, acts[..k]), acts[k])
    ensures var c := After(n, limit, threads, acts).core;
            !Consume(c).1.NoBuffer? && TailCovered(c) && (Fetching(c) ==> !ZeroLength(c))
  {
    InitSafe(n, limit, threads);
    RunSafe(Init(n, limit, threads), acts);
    RunClean(Init(n, limit, threads), acts);
    CleanHasNoOrphanCompletion(After(n, limit, threads, acts).core);
  }

  /** Each such publication can lead there: the engine rejects the descriptor it was given. */
  lemma EmptyPublicationOrphans(s: System, a: Action)
    requires Safe(s) && PublishesEmpty(s, a)
    ensures var c := Step(Step(s, a), EngineReject(TWO28)).core; c.Shape() && Consume(c).1.NoBuffer?
  {
    EmptyPublicationRejected(s.core);
  }
}
