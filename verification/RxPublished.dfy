/** No posted descriptor stays unpublished: whenever the ring is behind, some refiller has yet to publish. */
module RxPublished {
  import opened Modular
  import opened Wrappers
  import opened RxRing
  import opened RxRingProofs
  import opened RxSystem
  import opened RxRuns

  /** The thread has posted since its last publication. */
  predicate Owes(t: Thread) {
    match t
    case Getting(queued) => queued
    case Holding(_, queued) => queued
    case PuttingBack(_, queued) => queued
    case Posted => true
    case CountedIn => true
    case Publishing => true
    case _ => false
  }

  ghost predicate SomeoneOwes(s: System) {
    exists t :: 0 <= t < |s.threads| && Owes(s.threads[t])
  }

  /** The engine knows of everything that was posted. */
  predicate Told(c: Core) {
    c.engine.run && c.hist.posts > 0 ==> c.engine.tail.Some? && c.engine.tail.value == c.ring.tail
  }

  ghost predicate Upto(s: System) {
    s.recovery.Quiet? ==> Told(s.core) || SomeoneOwes(s)
  }

  /** One thread's step: the engine is told afterwards, or the thread owes, or neither was so before. */
  lemma StaysUpto(s: System, s': System, t: nat)
    requires Upto(s) && t < |s.threads| == |s'.threads| && s'.recovery == s.recovery
    requires forall u :: 0 <= u < |s.threads| && u != t ==> s'.threads[u] == s.threads[u]
    requires Told(s'.core) || Owes(s'.threads[t]) || (!Told(s.core) && !Owes(s.threads[t]))
    ensures Upto(s')
  {
    if s.recovery.Quiet? && !Told(s'.core) && !Owes(s'.threads[t]) {
      var u :| 0 <= u < |s.threads| && Owes(s.threads[u]);
      assert Owes(s'.threads[u]);
    }
  }

  lemma PublishTold(s: System, t: nat)
    requires Safe(s) && t < |s.threads| && s.threads[t].Publishing? && s.recovery.Quiet?
    ensures Told(Advance(s, t, KeepOn).core)
  {
  }

  lemma PollTold(s: System, t: nat, choice: Choice)
    requires s.core.Shape() && t < |s.threads| && s.threads[t].Idle?
    ensures Told(Advance(s, t, choice).core) == Told(s.core)
  {
  }

  lemma AdvanceUpto(s: System, t: nat, choice: Choice)
    requires Safe(s) && Upto(s) && t < |s.threads|
    ensures Upto(Advance(s, t, choice))
  {
    AdvanceLocal(s, t, choice);
    if s.threads[t].Idle? {
      PollTold(s, t, choice);
    }
    if s.recovery.Quiet? {
      if s.threads[t].Publishing? {
        PublishTold(s, t);
      }
      StaysUpto(s, Advance(s, t, choice), t);
    }
  }

  lemma ArmTold(c: Core)
    requires Inv(c) && !c.ring.started
    ensures Told(ArmStart(c))
  {
  }

  lemma StepUpto(s: System, a: Action)
    requires Safe(s) && Upto(s)
    ensures Upto(Step(s, a))
  {
    match a
    case Act(t, choice) => if t < |s.threads| { AdvanceUpto(s, t, choice); }
    case Recover => if s.recovery.Running? { ArmTold(s.core); }
    case _ =>
  }

  lemma {:induction false} AfterUpto(n: nat, limit: nat, threads: nat, acts: seq<Action>)
    requires 0 < n && 0 < threads
    ensures Upto(After(n, limit, threads, acts))
  {
    if acts == [] {
    } else {
      var before := acts[..|acts| - 1];
      AfterUpto(n, limit, threads, before);
      AfterSafe(n, limit, threads, before);
      StepUpto(After(n, limit, threads, before), acts[|acts| - 1]);
    }
  }

  /** What a published newest tail means: the engine is at work on all that is posted, or parked at a full ring. */
  lemma TailTells(c: Core)
    requires Inv(c) && c.ring.started && c.engine.run && c.hist.posts > 0 && c.engine.tail == Some(c.ring.tail)
    ensures var pending := c.ring.posted - c.hist.done;
            pending > 0 ==>
              || (Fetching(c) && Ahead(c.engine.cur, c.ring.tail, c.N()) == pending - 1)
              || (c.engine.caught && pending == c.N())
  {
    PublicationOpensAll(c);
  }

  /**
   In every run, while no recovery goes on, the engine runs and no thread is between a post and its
   publication, the published tail is the slot of the newest post; so the engine is to fetch everything that
   is posted, or is parked with all slots posted since.
   */
  lemma NothingUnpublished(n: nat, limit: nat, threads: nat, acts: seq<Action>)
    requires 0 < n && 0 < threads
    ensures var s := After(n, limit, threads, acts);
            var c, pending := s.core, s.core.ring.posted - s.core.hist.done;
            s.recovery.Quiet? && c.engine.run && c.hist.posts > 0 && !SomeoneOwes(s) ==>
              && c.engine.tail == Some(c.ring.tail)
              && (pending > 0 ==>
                    || (Fetching(c) && Ahead(c.engine.cur, c.ring.tail, c.N()) == pending - 1)
                    || (c.engine.caught && pending == c.N()))
  {
    AfterUpto(n, limit, threads, acts);
    AfterSafe(n, limit, threads, acts);
    var s := After(n, limit, threads, acts);
    if s.recovery.Quiet? && s.core.engine.run && s.core.hist.posts > 0 && !SomeoneOwes(s) {
      TailTells(s.core);
    }
  }
}
