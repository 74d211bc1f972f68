/**
 The receive path as a transition system. Any number of threads and interrupt handlers refill,
 poll, work, destroy fragments and release buffers, the recovery work item rebuilds the ring, and
 the S2MM engine runs, all interleaved; one step is one lock-protected section, one FIFO
 operation, one atomic counter operation or one engine step.
 */
module RxSystem {
  import opened Wrappers
  import opened BdStatus
  import opened RxRing
  import opened RxRingProofs
  import opened Ledgers

  /** Where a thread stands, and the buffer it alone refers to. */
  datatype Thread =
    | Idle
    | Getting(queued: bool)               // refill, before k_fifo_get(free)
    | Holding(rx: Buf, queued: bool)      // refill, before post_one
    | Posted                              // refill, posted, before atomic_inc(dma)
    | CountedIn                           // refill, before atomic_dec(free)
    | PuttingBack(rx: Buf, queued: bool)  // refill, refused, before k_fifo_put(free)
    | Publishing                          // refill, before update_tail
    | Taken(rx: Buf)                      // poll, consumed, before atomic_dec(dma)
    | Polled(rx: Buf)                     // poll, before the interceptor's verdict
    | Readying(rx: Buf)                   // poll, before k_fifo_put(ready)
    | Fetched(rx: Buf)                    // worker, before atomic_dec(ready)
    | Claiming(rx: Buf)                   // worker, before atomic_inc(worker)
    | Working(rx: Buf)                    // worker, building the packet
    | Sharing(rx: Buf)                    // worker, before atomic_dec(worker)
    | HandingOff(rx: Buf)                 // worker, before the fragment reaches the stack
    | Destroying(rx: Buf)                 // fragment destructor, before atomic_dec(stack)
    | Releasing(rx: Buf)                  // release, before atomic_inc(free)
    | Returning(rx: Buf)                  // release, before k_fifo_put(free)

  /** Where the recovery work item stands; `start` joins it at Refilling. */
  datatype Recovery =
    | Quiet
    | Stopped                           // engine reset, before the rebuild
    | Orphaned(orphans: seq<Buf>)       // rebuilt, before atomic_sub(dma)
    | Handing(orphans: seq<Buf>)        // before the next atomic_inc(free)
    | Putting(orphans: seq<Buf>)        // before the next k_fifo_put(free)
    | Refilling                         // thread 0 runs the refill
    | Reset                             // arm: engine reset again
    | Aimed                             // arm: CURDESC written
    | Running                           // arm: RS written, before the lock

  datatype System = System(core: Core, free: seq<Buf>, ready: seq<Buf>, stack: multiset<Buf>,
                           threads: seq<Thread>, recovery: Recovery, counts: Counts)

  /** What an idle thread starts, or which way a thread with a choice goes. */
  datatype Choice = Refill | Poll | Work | Destroy(rx: Buf) | Release | KeepOn

  datatype Action =
    | Act(thread: nat, choice: Choice)
    | Recover
    | EngineFrame(status: nat)
    | EngineReject(status: nat)
    | EngineHalt

  predicate Live(s: System) {
    s.core.Shape() && 0 < |s.threads|
  }

  // ---- Steps ----

  /** After the refill loop: publish only if something was queued. */
  function EndRefill(queued: bool): Thread {
    if queued then Publishing else Idle
  }

  /** An idle thread starts an operation, up to its first shared step. */
  function Begin(s: System, t: nat, choice: Choice): System
    requires s.core.Shape() && t < |s.threads|
  {
    match choice
    case Refill => s.(threads := s.threads[t := Getting(false)])
    case Poll =>
      var (core, result) := Consume(s.core);
      if result.Frame? then s.(core := core, threads := s.threads[t := Taken(result.rx)]) else s
    case Work =>
      if s.ready == [] then s
      else s.(ready := s.ready[1..], threads := s.threads[t := Fetched(s.ready[0])])
    case Destroy(rx) =>
      if rx !in s.stack then s
      else s.(stack := s.stack - multiset{rx}, threads := s.threads[t := Destroying(rx)])
    case Release => s
    case KeepOn => s
  }

  function Add5(c: Counts, d: Counts): Counts {
    Counts(c.free + d.free, c.dma + d.dma, c.ready + d.ready, c.worker + d.worker, c.stack + d.stack)
  }

  /** The steps of a thread that touch no FIFO, no ring slot and no stack: where it goes and what
      it enters. */
  function CountStep(t: Thread, choice: Choice): (Thread, Counts) {
    match t
    case Posted => (CountedIn, Counts(0, 1, 0, 0, 0))
    case CountedIn => (Getting(true), Counts(-1, 0, 0, 0, 0))
    case Taken(rx) => (Polled(rx), Counts(0, -1, 0, 0, 0))
    case Polled(rx) =>
      if choice.Release? then (Releasing(rx), Counts(0, 0, 0, 0, 0)) else (Readying(rx), Counts(0, 0, 1, 0, 0))
    case Fetched(rx) => (Claiming(rx), Counts(0, 0, -1, 0, 0))
    case Claiming(rx) => (Working(rx), Counts(0, 0, 0, 1, 0))
    case Working(rx) =>
      if choice.Release? then (Releasing(rx), Counts(0, 0, 0, -1, 0)) else (Sharing(rx), Counts(0, 0, 0, 0, 1))
    case Sharing(rx) => (HandingOff(rx), Counts(0, 0, 0, -1, 0))
    case Destroying(rx) => (Releasing(rx), Counts(0, 0, 0, 0, -1))
    case Releasing(rx) => (Returning(rx), Counts(1, 0, 0, 0, 0))
    case _ => (t, Counts(0, 0, 0, 0, 0))
  }

  /** The thread's next step is on a counter alone. */
  predicate Counting(t: Thread) {
    t.Posted? || t.CountedIn? || t.Taken? || t.Polled? || t.Fetched? || t.Claiming? || t.Working?
    || t.Sharing? || t.Destroying? || t.Releasing?
  }

  /** The next shared step of a thread. */
  function Advance(s: System, t: nat, choice: Choice): System
    requires s.core.Shape() && t < |s.threads|
  {
    match s.threads[t]
    case Idle => Begin(s, t, choice)
    case Getting(queued) =>
      if s.free == [] then s.(threads := s.threads[t := EndRefill(queued)])
      else s.(free := s.free[1..], threads := s.threads[t := Holding(s.free[0], queued)])
    case Holding(rx, queued) =>
      var (core, posted) := PostOne(s.core, rx);
      s.(core := core, threads := s.threads[t := if posted then Posted else PuttingBack(rx, queued)])
    case PuttingBack(rx, queued) =>
      s.(free := s.free + [rx], threads := s.threads[t := EndRefill(queued)])
    case Publishing => s.(core := UpdateTail(s.core), threads := s.threads[t := Idle])
    case Readying(rx) => s.(ready := s.ready + [rx], threads := s.threads[t := Idle])
    case HandingOff(rx) => s.(stack := s.stack + multiset{rx}, threads := s.threads[t := Idle])
    case Returning(rx) => s.(free := s.free + [rx], threads := s.threads[t := Getting(false)])
    case _ =>
      var (l, d) := CountStep(s.threads[t], choice);
      s.(counts := Add5(s.counts, d), threads := s.threads[t := l])
  }

  /** The buffers recorded in rx_bd_buffer, in slot order: the orphans of a rebuild. */
  function Recorded(owner: seq<Option<Buf>>): seq<Buf> {
    if owner == [] then []
    else
      var last := owner[|owner| - 1];
      Recorded(owner[..|owner| - 1]) + if last.Some? then [last.value] else []
  }

  /** The next step of emz_rx_direct_recover. Its refill is run by thread 0, the work queue. */
  function RecoverStep(s: System): System
    requires Live(s)
  {
    match s.recovery
    case Quiet =>
      if s.threads[0].Idle? then s.(core := ResetEngine(s.core), recovery := Stopped) else s
    case Stopped => s.(core := Rebuild(s.core), recovery := Orphaned(Recorded(s.core.ring.owner)))
    case Orphaned(orphans) => s.(counts := s.counts.(dma := s.counts.dma - |orphans|), recovery := Handing(orphans))
    case Handing(orphans) =>
      if orphans != [] then s.(counts := s.counts.(free := s.counts.free + 1), recovery := Putting(orphans))
      else if s.threads[0].Idle? then s.(threads := s.threads[0 := Getting(false)], recovery := Refilling)
      else s
    case Putting(orphans) =>
      if orphans == [] then s else s.(free := s.free + [orphans[0]], recovery := Handing(orphans[1..]))
    case Refilling =>
      if s.threads[0].Idle? then s.(core := ResetEngine(s.core), recovery := Reset) else s
    case Reset => s.(core := ArmCurrent(s.core), recovery := Aimed)
    case Aimed => s.(core := ArmRun(s.core), recovery := Running)
    case Running => s.(core := ArmStart(s.core), recovery := Quiet)
  }

  /** One step; an action that is not enabled leaves the state as it is. */
  function Step(s: System, a: Action): System
    requires Live(s)
  {
    match a
    case Act(t, choice) => if t < |s.threads| then Advance(s, t, choice) else s
    case Recover => RecoverStep(s)
    case EngineFrame(status) =>
      if Fetching(s.core) && !ZeroLength(s.core) && Finished(status)
      then s.(core := Complete(s.core, status)) else s
    case EngineReject(status) =>
      if Fetching(s.core) && ZeroLength(s.core) then s.(core := Reject(s.core, status)) else s
    case EngineHalt => s.(core := Halt(s.core))
  }

  /** emz_init up to emz_rx_direct_start: every buffer is free and the ring is zeroed. */
  function Init(n: nat, limit: nat, threads: nat): System
    requires 0 < n && 0 < threads
  {
    System(Core(Ring(seq(n, i => Bd(None, 0, 0)), seq(n, i => None), 0, 0, 0, 0, 0, false),
                Engine(false, 0, None, false), History(0, 0, []), limit),
           seq(n, i => i), [], multiset{}, [Getting(false)] + seq(threads - 1, i => Idle),
           Refilling, Counts(n, 0, 0, 0, 0))
  }

  // ---- Ring safety in every reachable state ----

  /** The recovery work item against the ring. */
  ghost predicate InPhase(s: System)
    requires s.core.Shape()
  {
    match s.recovery
    case Quiet => s.core.ring.started
    case Stopped => s.core.ring.started && !s.core.engine.run
    case Orphaned(_) => !s.core.ring.started && !s.core.engine.run
    case Handing(_) => !s.core.ring.started && !s.core.engine.run
    case Putting(_) => !s.core.ring.started && !s.core.engine.run
    case Refilling => !s.core.ring.started && !s.core.engine.run
    case Reset => !s.core.ring.started && s.core.engine == Engine(false, s.core.engine.cur, None, false)
                  && s.core.hist.tails == []
    case Aimed => !s.core.ring.started && s.core.engine == Engine(false, s.core.ring.consume, None, false)
                  && s.core.hist.tails == []
    case Running => !s.core.ring.started && s.core.engine.tail.None? && !s.core.engine.caught
                    && s.core.hist.tails == []
  }

  ghost predicate Safe(s: System) {
    && Inv(s.core)
    && 0 < |s.threads|
    && InPhase(s)
  }

  lemma InitSafe(n: nat, limit: nat, threads: nat)
    requires 0 < n && 0 < threads
    ensures Safe(Init(n, limit, threads))
    ensures Clean(Init(n, limit, threads).core)
  {
  }

  /** The step publishes on an armed ring that is empty and untailed. */
  predicate PublishesEmpty(s: System, a: Action) {
    a.Act? && a.thread < |s.threads| && s.threads[a.thread].Publishing? && EmptyPublication(s.core)
  }

  lemma BeginSafe(s: System, t: nat, choice: Choice)
    requires Safe(s) && t < |s.threads|
    ensures Safe(Begin(s, t, choice))
  {
    if choice.Poll? {
      ConsumeKeepsInv(s.core);
      ConsumeTakesCompletion(s.core);
    }
  }

  lemma HoldingSafe(s: System, t: nat)
    requires Safe(s) && t < |s.threads| && s.threads[t].Holding?
    ensures Safe(Advance(s, t, KeepOn))
  {
    PostOneKeepsInv(s.core, s.threads[t].rx);
  }

  lemma PublishingSafe(s: System, t: nat)
    requires Safe(s) && t < |s.threads| && s.threads[t].Publishing?
    ensures Safe(Advance(s, t, KeepOn))
  {
    UpdateTailKeepsInv(s.core);
  }

  /** Every other step of a thread leaves the ring and the engine alone. */
  lemma AdvanceLocal(s: System, t: nat, choice: Choice)
    requires s.core.Shape() && t < |s.threads|
    ensures Advance(s, t, choice).recovery == s.recovery && |Advance(s, t, choice).threads| == |s.threads|
    ensures !s.threads[t].Idle? && !s.threads[t].Holding? && !s.threads[t].Publishing? ==>
      Advance(s, t, choice).core == s.core
    ensures s.threads[t].Holding? || s.threads[t].Publishing? ==> Advance(s, t, choice) == Advance(s, t, KeepOn)
  {
  }

  lemma AdvanceSafe(s: System, t: nat, choice: Choice)
    requires Safe(s) && t < |s.threads|
    ensures Safe(Advance(s, t, choice))
  {
    AdvanceLocal(s, t, choice);
    match s.threads[t]
    case Idle => BeginSafe(s, t, choice);
    case Holding(rx, queued) => HoldingSafe(s, t);
    case Publishing => PublishingSafe(s, t);
    case _ => assert InPhase(Advance(s, t, choice)) == InPhase(s);
  }

  lemma AdvanceClean(s: System, t: nat, choice: Choice)
    requires Safe(s) && t < |s.threads| && Clean(s.core) && !PublishesEmpty(s, Act(t, choice))
    ensures Clean(Advance(s, t, choice).core)
  {
    AdvanceLocal(s, t, choice);
    match s.threads[t]
    case Idle => ConsumeClean(s.core);
    case Holding(rx, queued) => PostOneClean(s.core, rx);
    case Publishing => UpdateTailClean(s.core);
    case _ =>
  }

  lemma ResetSafe(s: System)
    requires Safe(s) && (s.recovery.Quiet? || s.recovery.Refilling?)
    ensures Safe(RecoverStep(s))
  {
    ResetEngineKeepsInv(s.core);
  }

  lemma RebuildSafe(s: System)
    requires Safe(s) && s.recovery.Stopped?
    ensures Safe(RecoverStep(s))
  {
  }

  lemma ArmSafe(s: System)
    requires Safe(s) && (s.recovery.Reset? || s.recovery.Aimed?)
    ensures Safe(RecoverStep(s))
  {
    if s.recovery.Reset? {
      ArmCurrentKeepsInv(s.core);
    } else {
      ArmRunKeepsInv(s.core);
    }
  }

  lemma StartSafe(s: System)
    requires Safe(s) && s.recovery.Running?
    ensures Safe(RecoverStep(s))
  {
    ArmStartKeepsInv(s.core);
  }

  lemma RecoverSafe(s: System)
    requires Safe(s)
    ensures Safe(RecoverStep(s))
  {
    match s.recovery
    case Quiet => ResetSafe(s);
    case Stopped => RebuildSafe(s);
    case Refilling => ResetSafe(s);
    case Reset => ArmSafe(s);
    case Aimed => ArmSafe(s);
    case Running => StartSafe(s);
    case Orphaned(_) =>
    case Handing(_) =>
    case Putting(_) =>
  }

  lemma RecoverClean(s: System)
    requires Safe(s) && Clean(s.core)
    ensures Clean(RecoverStep(s).core)
  {
    RecoverSafe(s);
  }

  lemma EngineSafe(s: System, a: Action)
    requires Safe(s) && (a.EngineFrame? || a.EngineReject? || a.EngineHalt?)
    ensures Safe(Step(s, a))
  {
    match a
    case EngineFrame(status) =>
      if Fetching(s.core) && !ZeroLength(s.core) && Finished(status) {
        CompleteKeepsInv(s.core, status);
      }
    case EngineReject(status) =>
      if Fetching(s.core) && ZeroLength(s.core) {
        RejectKeepsInv(s.core, status);
      }
    case EngineHalt => HaltKeepsInv(s.core);
  }

  lemma EngineClean(s: System, a: Action)
    requires Safe(s) && Clean(s.core) && (a.EngineFrame? || a.EngineReject? || a.EngineHalt?)
    ensures Clean(Step(s, a).core)
  {
    EngineSafe(s, a);
    match a
    case EngineFrame(status) =>
      if Fetching(s.core) && !ZeroLength(s.core) && Finished(status) {
        CompleteClean(s.core, status);
      }
    case EngineReject(status) => CleanHasNoOrphanCompletion(s.core);
    case EngineHalt =>
  }

  lemma StepSafe(s: System, a: Action)
    requires Safe(s)
    ensures Safe(Step(s, a))
  {
    match a
    case Act(t, choice) => if t < |s.threads| { AdvanceSafe(s, t, choice); }
    case Recover => RecoverSafe(s);
    case _ => EngineSafe(s, a);
  }

  lemma StepClean(s: System, a: Action)
    requires Safe(s) && Clean(s.core) && !PublishesEmpty(s, a)
    ensures Clean(Step(s, a).core)
  {
    match a
    case Act(t, choice) => if t < |s.threads| { AdvanceClean(s, t, choice); }
    case Recover => RecoverClean(s);
    case _ => EngineClean(s, a);
  }

  lemma AdvanceSizes(s: System, t: nat, choice: Choice)
    requires s.core.Shape() && t < |s.threads|
    ensures Advance(s, t, choice).core.N() == s.core.N() && Advance(s, t, choice).core.limit == s.core.limit
  {
  }

  /** The pool, the limit and the threads stay the same. */
  lemma StepSizes(s: System, a: Action)
    requires Live(s)
    ensures Step(s, a).core.N() == s.core.N() && Step(s, a).core.limit == s.core.limit
  {
    if a.Act? && a.thread < |s.threads| {
      AdvanceSizes(s, a.thread, a.choice);
    }
  }

  lemma AdvanceLive(s: System, t: nat, choice: Choice)
    requires Live(s) && t < |s.threads|
    ensures Live(Advance(s, t, choice))
  {
    AdvanceLocal(s, t, choice);
  }

  lemma StepLive(s: System, a: Action)
    requires Live(s)
    ensures Live(Step(s, a))
  {
    if a.Act? && a.thread < |s.threads| {
      AdvanceLive(s, a.thread, a.choice);
    }
  }
}
