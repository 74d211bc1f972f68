/**
 The driver's receive ring as it is written: arrays and indices updated in place, with the loops
 of the refill, the poll and the recovery. Each method is proved against the steps of RxRing.
 Nothing interleaves here; RxSystem does that for the same steps.
 */
module RxDriver {
  import opened Modular
  import opened Wrappers
  import opened BdStatus
  import opened RxRing
  import opened RxRingProofs
  import opened RxSystem
  import opened RxPoll
  import opened RxPollProofs

  class Driver {
    const limit: nat               // EMZ_DMA_RX_MAX_INFLIGHT
    const bd: array<Bd>            // rx_bd_ring
    const owner: array<Option<Buf>> // rx_bd_buffer
    var consume: nat
    var refill: nat
    var tail: nat
    var posted: nat
    var inflight: nat
    var started: bool
    var engine: Engine             // the S2MM registers and what they make the engine do
    var free: seq<Buf>             // rx_free_fifo
    var ready: seq<Buf>            // rx_ready_fifo
    ghost var hist: History

    ghost function State(): Core
      reads this, bd, owner
    {
      Core(Ring(bd[..], owner[..], consume, refill, tail, posted, inflight, started), engine, hist, limit)
    }

    ghost predicate Valid()
      reads this, bd, owner
    {
      Inv(State())
    }

    /** emz_rx_direct_start: a zeroed ring and every buffer free. */
    constructor (n: nat, limit: nat)
      requires n > 0
      ensures Valid() && State() == Init(n, limit, 1).core && free == Init(n, limit, 1).free && ready == []
      ensures fresh(bd) && fresh(owner)
    {
      this.limit := limit;
      bd := new Bd[n](i => Bd(None, 0, 0));
      owner := new Option<Buf>[n](i => None);
      consume, refill, tail, posted, inflight, started := 0, 0, 0, 0, 0, false;
      engine := Engine(false, 0, None, false);
      free := seq(n, i => i);
      ready := [];
      hist := History(0, 0, []);
      new;
      assert bd[..] == seq(n, i => Bd(None, 0, 0));
      assert owner[..] == seq(n, i => None);
      InitSafe(n, limit, 1);
    }

    /** emz_rx_direct_program_bd. */
    method ProgramBd(index: nat, rx: Buf)
      requires index < bd.Length == owner.Length
      modifies bd, owner
      ensures bd[..] == old(bd[..])[index := Bd(Some(rx), BUFFER_SIZE, 0)]
      ensures owner[..] == old(owner[..])[index := Some(rx)]
    {
      bd[index] := Bd(Some(rx), BUFFER_SIZE, bd[index].status);
      bd[index] := bd[index].(status := 0);
      owner[index] := Some(rx);
    }

    /** The TAILDESC write. */
    method WriteTailDesc(index: nat)
      modifies this`engine, this`hist
      ensures State() == WriteTail(old(State()), index)
    {
      engine := engine.(tail := Some(index), caught := engine.caught && engine.tail == Some(index));
      hist := hist.(tails := hist.tails + [TailWrite(index, hist.posts)]);
    }

    /** emz_rx_direct_update_tail. */
    method PublishTail()
      requires Valid()
      modifies this`engine, this`hist
      ensures Valid() && State() == UpdateTail(old(State()))
    {
      UpdateTailKeepsInv(State());
      if !started {
        return;
      }
      WriteTailDesc(tail);
    }

    /** What a post changes once the slot and the limit allow it. */
    method Record(rx: Buf)
      requires State().Shape() && owner[refill] == None && inflight < limit
      modifies this`posted, this`inflight, this`refill, this`tail, this`hist, bd, owner
      ensures State() == PostOne(old(State()), rx).0
    {
      var index := refill;
      inflight := inflight + 1;
      ProgramBd(index, rx);
      posted := posted + 1;
      refill := Next(index, owner.Length);
      tail := index;
      hist := hist.(posts := hist.posts + 1);
    }

    /** emz_rx_direct_post_one. */
    method Post(rx: Buf) returns (ret: int)
      requires Valid()
      modifies this`posted, this`inflight, this`refill, this`tail, this`hist, bd, owner
      ensures Valid() && State() == PostOne(old(State()), rx).0
      ensures ret == if PostOne(old(State()), rx).1 then 1 else 0
    {
      PostOneKeepsInv(State(), rx);
      var index := refill;
      if owner[index].Some? {
        return 0;
      }
      if inflight >= limit {
        return 0;
      }
      Record(rx);
      return 1;
    }

    /** One round of the refill loop: the flag says that the loop ends. A refused buffer goes to
        the back of the free FIFO. */
    method RefillOne() returns (end: bool)
      requires Valid()
      modifies this`posted, this`inflight, this`refill, this`tail, this`hist, this`free, bd, owner
      ensures Valid()
      ensures end <==> old(free) == [] || old(posted) >= Min(owner.Length, limit)
      ensures end ==> State() == old(State())
                      && free == if old(free) == [] then [] else old(free)[1..] + [old(free)[0]]
      ensures !end ==> State() == PostOne(old(State()), old(free)[0]).0 && posted == old(posted) + 1
                       && free == old(free)[1..]
    {
      if free == [] {
        return true;
      }
      var rx := free[0];
      PostOneKeepsInv(State(), rx);
      free := free[1..];
      var ret := Post(rx);
      end := ret <= 0;
      if end {
        free := free + [rx];
      }
    }

    /** The loop of the refill. */
    method RefillLoop() returns (queued: nat)
      requires Valid()
      modifies this`posted, this`inflight, this`refill, this`tail, this`hist, this`free, bd, owner
      ensures Valid()
      ensures queued == Min(|old(free)|, Min(owner.Length, limit) - old(posted)) && free == Rotated(old(free), queued)
      ensures State() == PostAll(old(State()), old(free)[..queued])
    {
      queued := 0;
      var end := false;
      while !end
        invariant Valid() && queued <= |old(free)|
        invariant State() == PostAll(old(State()), old(free)[..queued])
        invariant posted == old(posted) + queued <= Min(owner.Length, limit)
        invariant !end ==> free == old(free)[queued..]
        invariant end ==> queued == |old(free)| || posted >= Min(owner.Length, limit)
        invariant end ==> free == Rotated(old(free), queued)
        decreases !end, |free|
      {
        end := RefillOne();
        if !end {
          PostAllStep(old(State()), old(free), queued);
          queued := queued + 1;
        }
      }
    }

    /** The refill loop, and one publication behind it if anything was posted. */
    method RefillAndPublish() returns (queued: nat)
      requires Valid()
      modifies this`posted, this`inflight, this`refill, this`tail, this`hist, this`engine, this`free, bd, owner
      ensures Valid() && (State(), free) == Refilled(old(State()), old(free))
      ensures queued == Min(|old(free)|, Min(owner.Length, limit) - old(posted)) && free == Rotated(old(free), queued)
    {
      queued := RefillLoop();
      if queued > 0 {
        PublishTail();
      }
    }

    /** emz_rx_direct_refill: post from the front of the free FIFO until it is empty or a post is
        refused, then publish once; the refused buffer goes to the back. */
    method Refill() returns (queued: nat)
      requires Valid()
      modifies this`posted, this`inflight, this`refill, this`tail, this`hist, this`engine, this`free, bd, owner
      ensures Valid() && (State(), free) == Refilled(old(State()), old(free))
      ensures queued == Min(|old(free)|, Min(owner.Length, limit) - old(posted)) && free == Rotated(old(free), queued)
      ensures posted == old(posted) + queued && Posted() == old(Posted()) + old(free)[..queued]
      ensures if queued == 0 then State() == old(State()) else started ==> engine.tail == Some(tail)
    {
      ghost var c, pool := State(), free;
      RefillTells(c, pool);
      ghost var d := Refilled(c, pool).0;
      queued := RefillAndPublish();
      assert State() == d;
    }

    /** What the poll changes for a finished descriptor with a buffer. */
    method Release()
      requires State().Shape() && owner[consume].Some? && Finished(bd[consume].status)
      requires posted > 0 && hist.done > 0
      modifies this`posted, this`inflight, this`consume, this`hist, bd, owner
      ensures State() == Consume(old(State())).0
    {
      var index := consume;
      bd[index] := bd[index].(status := 0);
      owner[index] := None;
      posted := posted - 1;
      consume := Next(index, owner.Length);
      if inflight > 0 {
        inflight := inflight - 1;
      }
      hist := hist.(done := hist.done - 1);
    }

    /** The lock-protected part of one poll iteration, and the length and error it reports. */
    method Take() returns (result: PollResult, len: nat, failed: bool)
      requires Valid()
      modifies this`posted, this`inflight, this`consume, this`hist, bd, owner
      ensures Valid() && State() == Consume(old(State())).0 && result == Consume(old(State())).1
      ensures result.Frame? ==> (len, failed) == Received(result.status)
    {
      ConsumeKeepsInv(State());
      ConsumeTakesCompletion(State());
      len, failed := 0, false;
      var index := consume;
      var status := bd[index].status;
      if !Finished(status) {
        return Nothing, 0, false;
      }
      var rx := owner[index];
      if rx.None? {
        return NoBuffer, 0, false;
      }
      Release();
      len, failed := Length(status), Failed(status);
      if len > BUFFER_SIZE {
        len, failed := BUFFER_SIZE, true;
      }
      result := Frame(rx.value, status);
    }

    /** The refill, as the poll's bookkeeping sees it. */
    method RefillAside()
      requires Valid()
      modifies this`posted, this`inflight, this`refill, this`tail, this`hist, this`engine, this`free, bd, owner
      ensures Valid() && (State(), free) == Refilled(old(State()), old(free))
    {
      var queued := Refill();
    }

    /** emz_release_rx_buffer: back to the free FIFO, then refill. */
    method ReleaseRx(rx: Buf)
      requires Valid()
      modifies this`posted, this`inflight, this`refill, this`tail, this`hist, this`engine, this`free, bd, owner
      ensures Valid() && (State(), free) == Refilled(old(State()), old(free) + [rx])
    {
      free := free + [rx];
      RefillAside();
    }

    ghost function Now(): Pools
      reads this, bd, owner
    {
      Pools(State(), free, ready)
    }

    ghost function AfterPoll(intercept: Buf -> bool): Pools
      requires Valid()
      reads this, bd, owner
    {
      WholePoll(Now(), intercept)
    }

    /** The next completion is in a slot without a buffer. */
    ghost predicate Orphaned()
      requires Valid()
      reads this, bd, owner
    {
      Consume(State()).1.NoBuffer?
    }

    /** One round of the poll loop. The interceptor is asked about frames without an error only. */
    method PollOne(intercept: Buf -> bool) returns (end: bool, recover: bool)
      requires Valid()
      modifies this, bd, owner
      ensures Valid() && (end <==> old(hist.done) == 0)
      ensures end ==> Now() == old(Now()) && (recover <==> Consume(State()).1.NoBuffer?)
      ensures !end ==> Now() == PollOnce(old(Now()), intercept) && !recover
    {
      ConsumeTakesCompletion(State());
      recover := false;
      var result, len, failed := Take();
      if result.Nothing? {
        return true, false;
      }
      if result.NoBuffer? {
        return true, true;
      }
      end := false;
      if !failed && intercept(result.rx) {
        ReleaseRx(result.rx);
      } else {
        ready := ready + [result.rx];
      }
    }

    /** The poll loop. */
    method PollLoop(intercept: Buf -> bool) returns (completed: nat, recover: bool)
      requires Valid()
      modifies this, bd, owner
      ensures Valid() && completed == old(hist.done) && Now() == PollAll(old(Now()), intercept)
      ensures recover <==> Consume(State()).1.NoBuffer?
    {
      completed, recover := 0, false;
      ghost var total, final := hist.done, PollAll(Now(), intercept);
      var end := false;
      while !end
        invariant Valid() && completed + hist.done == total && PollAll(Now(), intercept) == final
        invariant end ==> hist.done == 0 && (recover <==> Consume(State()).1.NoBuffer?)
        decreases !end, hist.done
      {
        end, recover := PollOne(intercept);
        if !end {
          completed := completed + 1;
        }
      }
    }

    /** The poll loop, and the refill behind it if anything was completed. */
    method PollAndRefill(intercept: Buf -> bool) returns (completed: nat, recover: bool)
      requires Valid()
      modifies this, bd, owner
      ensures Valid() && completed == old(hist.done) && Now() == old(AfterPoll(intercept))
      ensures recover <==> old(Orphaned())
    {
      OrphanFoundIff(Now(), intercept);
      completed, recover := PollLoop(intercept);
      if completed != 0 {
        RefillAside();
      }
    }

    /** emz_rx_direct_poll: the completed frames go to the ready FIFO in the order in which their
        buffers were posted, less those that the interceptor takes; a recovery is requested exactly
        if the poll started at a completion without a buffer; if anything was completed, the poll ends
        with an empty free FIFO or a full ring; what it posted is published; and no buffer is lost. */
    method Poll(intercept: Buf -> bool) returns (completed: nat, recover: bool)
      requires Valid()
      modifies this, bd, owner
      ensures Valid() && completed == old(hist.done) && Now() == old(AfterPoll(intercept))
      ensures recover <==> old(Orphaned())
      ensures if completed == 0 then Now() == old(Now()) else free == [] || posted == Min(owner.Length, limit)
      ensures started && hist.posts > old(hist.posts) ==> engine.tail == Some(tail)
      ensures Buffers(State(), free, ready) == old(Buffers(State(), free, ready))
      ensures ready == old(ready) + Kept(old(Completions(State())), intercept)
    {
      PollTells(Now(), intercept, 0);
      PollKeepsBuffers(Now(), intercept);
      PollInOrder(Now(), intercept);
      ghost var r := WholePoll(Now(), intercept);
      completed, recover := PollAndRefill(intercept);
      assert Now() == r;
    }

    /** emz_rx_direct_arm: reset, CURDESC, RS, and a tail only if something is posted. */
    method Arm()
      requires Valid() && !started
      modifies this`engine, this`started, this`hist
      ensures Valid() && State() == ArmStart(ArmRun(ArmCurrent(ResetEngine(old(State())))))
    {
      ArmKeepsInv(State());
      engine := Engine(false, engine.cur, None, false);
      hist := hist.(tails := []);
      engine := engine.(cur := consume);
      engine := engine.(run := true);
      started := true;
      if posted > 0 {
        WriteTailDesc(tail);
      }
    }

    /** The loop of the rebuild: empty every slot and collect the buffers. */
    method EmptySlots() returns (orphans: seq<Buf>)
      requires bd.Length == owner.Length
      modifies bd, owner
      ensures orphans == Recorded(old(owner[..]))
      ensures bd[..] == Rebuild(old(State())).ring.bd && owner[..] == Rebuild(old(State())).ring.owner
    {
      orphans := [];
      ghost var was := owner[..];
      for i := 0 to owner.Length
        invariant forall k :: i <= k < owner.Length ==> owner[k] == was[k] && bd[k] == old(bd[k])
        invariant forall k :: 0 <= k < i ==> owner[k] == None && bd[k] == Bd(old(bd[k]).address, 0, 0)
        invariant orphans == Recorded(was[..i])
      {
        assert was[..i + 1][..i] == was[..i];
        if owner[i].Some? {
          orphans := orphans + [owner[i].value];
          owner[i] := None;
        }
        bd[i] := bd[i].(status := 0);
        bd[i] := bd[i].(control := 0);
      }
      assert was[..owner.Length] == was;
    }

    /** The indices and counts of a rebuilt ring. */
    method ResetIndices()
      modifies this`consume, this`refill, this`tail, this`posted, this`inflight, this`started, this`hist
      ensures consume == refill == tail == posted == inflight == 0 && !started
      ensures hist == old(hist).(posts := 0, done := 0)
    {
      started := false;
      consume, refill, tail, posted, inflight := 0, 0, 0, 0, 0;
      hist := hist.(posts := 0, done := 0);
    }

    /** The rebuild of emz_rx_direct_recover: empty every slot and collect the buffers. */
    method RebuildRing() returns (orphans: seq<Buf>)
      requires Valid() && !engine.run
      modifies this`consume, this`refill, this`tail, this`posted, this`inflight, this`started, this`hist, bd, owner
      ensures Valid() && State() == Rebuild(old(State()))
      ensures !started && posted == 0 && hist.done == 0 && orphans == Recorded(old(owner[..]))
      ensures forall i :: 0 <= i < owner.Length ==> owner[i] == None && bd[i] == Bd(old(bd[i].address), 0, 0)
    {
      RebuildKeepsInv(State());
      ghost var rebuilt := Rebuild(State());
      orphans := EmptySlots();
      ResetIndices();
      assert State() == rebuilt;
    }

    /** Every orphan goes to the back of the free FIFO. */
    method FreeOrphans(orphans: seq<Buf>)
      modifies this`free
      ensures free == old(free) + orphans
    {
      for i := 0 to |orphans|
        invariant free == old(free) + orphans[..i]
      {
        free := free + [orphans[i]];
      }
      assert orphans[..|orphans|] == orphans;
    }

    /** The posted buffers from the consume index on. */
    ghost function Posted(): seq<Buf>
      requires Valid()
      reads this, bd, owner
    {
      Queue(State())
    }

    /** A refill of the rebuilt ring: as many buffers as fit, in FIFO order. */
    method RefillStopped() returns (queued: nat)
      requires Valid() && !started && posted == 0 && hist.done == 0
      modifies this`posted, this`inflight, this`refill, this`tail, this`hist, this`engine, this`free, bd, owner
      ensures Valid() && !started && hist.done == 0 && queued == posted == Min(|old(free)|, Min(owner.Length, limit))
      ensures Posted() == old(free)[..queued]
      ensures free == Rotated(old(free), queued) && (queued == 0 ==> engine == old(engine))
    {
      StoppedRefill(State(), free);
      queued := Refill();
    }

    /** The reset of the engine. */
    method StopEngine()
      requires Valid()
      modifies this`engine, this`hist
      ensures Valid() && State() == ResetEngine(old(State()))
    {
      ResetEngineKeepsInv(State());
      engine := Engine(false, engine.cur, None, false);
      hist := hist.(tails := []);
    }

    /** The first half of emz_rx_direct_recover: stop the engine, then rebuild. */
    method StopAndRebuild() returns (orphans: seq<Buf>)
      requires Valid()
      modifies this, bd, owner
      ensures Valid() && !started && posted == 0 && hist.done == 0
      ensures orphans == Recorded(old(owner[..])) && free == old(free) && ready == old(ready)
    {
      StopEngine();
      orphans := RebuildRing();
    }

    /** The last part: arm, as the queue sees it. */
    method ArmRing()
      requires Valid() && !started
      modifies this`engine, this`started, this`hist
      ensures Valid() && started && engine.run && hist.done == 0
      ensures Posted() == old(Posted()) && (Fetching(State()) <==> posted > 0)
    {
      ArmKeepsQueue(State());
      Arm();
    }

    /** Refill and arm after a rebuild, with the pool in the free FIFO. */
    method RefillAndArm() returns (queued: nat)
      requires Valid() && !started && posted == 0 && hist.done == 0
      modifies this`posted, this`inflight, this`refill, this`tail, this`hist, this`engine, this`free, this`started,
               bd, owner
      ensures Valid() && started && engine.run && hist.done == 0
      ensures queued == Min(|old(free)|, Min(owner.Length, limit)) && Posted() == old(free)[..queued]
      ensures free == Rotated(old(free), queued)
      ensures Fetching(State()) <==> queued > 0
    {
      queued := RefillStopped();
      ArmRing();
    }

    /** The end of emz_rx_direct_start: the first refill, and the arming unless it posted nothing. */
    method Start() returns (ret: int)
      requires Valid() && !started && posted == 0 && hist.done == 0
      modifies this`posted, this`inflight, this`refill, this`tail, this`hist, this`engine, this`free, this`started,
               bd, owner
      ensures Valid() && hist.done == 0 && posted == Min(|old(free)|, Min(owner.Length, limit))
      ensures ret == if posted > 0 then posted else -ENOSPC
      ensures Posted() == old(free)[..posted] && free == Rotated(old(free), posted)
      ensures if posted > 0 then started && engine.run && Fetching(State()) else !started && engine == old(engine)
    {
      var queued := RefillStopped();
      if queued <= 0 {
        return -ENOSPC;
      }
      ArmRing();
      return queued;
    }

    /** emz_rx_direct_recover: the orphans join the free FIFO, the ring is refilled from its front,
        and the engine is armed, with a tail exactly if anything was posted. */
    method Recover() returns (queued: nat)
      requires Valid()
      modifies this, bd, owner
      ensures Valid() && started && engine.run && hist.done == 0 && ready == old(ready)
      ensures queued == Min(|old(Pool())|, Min(owner.Length, limit)) && (Fetching(State()) <==> queued > 0)
      ensures Posted() == old(Pool())[..queued] && free == Rotated(old(Pool()), queued)
    {
      var orphans := StopAndRebuild();
      FreeOrphans(orphans);
      assert free == old(Pool());
      queued := RefillAndArm();
    }

    /** The free buffers, and behind them those of the ring in slot order. */
    ghost function Pool(): seq<Buf>
      reads this, owner
    {
      free + Recorded(owner[..])
    }
  }
}
