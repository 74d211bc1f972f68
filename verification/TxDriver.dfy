/** The transmit ring as the driver writes it, with the loops of reclaim and reserve. */
module TxDriver {
  import opened Modular
  import opened Wrappers
  import opened BdStatus
  import opened TxRing

  /** How often emz_tx_direct_reserve waits for a microsecond before it gives up. */
  const MAX_WAITS: nat := 2000

  /** Reclaiming until the oldest in-flight descriptor is unfinished. */
  function ReclaimAll(x: Tx): Tx
    requires Shape(x)
    decreases x.inflight
  {
    if Reclaimable(x) then ReclaimAll(ReclaimOne(x)) else x
  }

  lemma {:induction false} ReclaimAllKeepsInv(x: Tx)
    requires Inv(x)
    ensures var x' := ReclaimAll(x);
            Inv(x') && x'.sent == 0 && x'.inflight == x.inflight - x.sent
            && x'.startOk == x.startOk && x'.populated == x.populated
            && (OwnBuffers(x) ==> OwnBuffers(x'))
    decreases x.inflight
  {
    ReclaimableIffSent(x);
    if Reclaimable(x) {
      ReclaimOneKeepsInv(x);
      ReclaimAllKeepsInv(ReclaimOne(x));
    }
  }

  /** Of n descriptors from slot at on, those whose error bits say `failed`. */
  function Outcomes(bd: seq<Bd>, at: nat, n: nat, failed: bool): nat
    requires |bd| == SLOTS && at < SLOTS
    decreases n
  {
    if n == 0 then 0
    else Outcomes(bd, Next(at, SLOTS), n - 1, failed) + if Failed(bd[at].status) == failed then 1 else 0
  }

  /** The n slots from `at` on. */
  predicate Among(at: nat, n: nat, i: nat)
    requires at < SLOTS && i < SLOTS
  {
    Ahead(at, i, SLOTS) < n
  }

  /** Slots outside the range do not count. */
  lemma {:induction false} OutcomesBeside(bd: seq<Bd>, bd': seq<Bd>, at: nat, n: nat, failed: bool)
    requires |bd| == |bd'| == SLOTS && at < SLOTS && n <= SLOTS
    requires forall i :: 0 <= i < SLOTS && Among(at, n, i) ==> bd'[i] == bd[i]
    ensures Outcomes(bd', at, n, failed) == Outcomes(bd, at, n, failed)
    decreases n
  {
    if n == 0 {
    } else {
      assert Among(at, n, at);
      forall i | 0 <= i < SLOTS && Among(Next(at, SLOTS), n - 1, i) ensures bd'[i] == bd[i] {
        assert Among(at, n, i);
      }
      OutcomesBeside(bd, bd', Next(at, SLOTS), n - 1, failed);
    }
  }

  /** The slot at `at` and the n - 1 behind it. */
  lemma AmongNext(at: nat, n: nat, i: nat)
    requires at < SLOTS && i < SLOTS && 0 < n <= SLOTS
    ensures Among(at, n, i) <==> i == at || Among(Next(at, SLOTS), n - 1, i)
    ensures !Among(Next(at, SLOTS), n - 1, at)
  {
  }

  lemma OneReclaimed(x: Tx, failed: bool)
    requires Inv(x) && x.sent > 0
    ensures Reclaimable(x)
    ensures var y := ReclaimOne(x);
            && Inv(y) && y.completed == Next(x.completed, SLOTS) && y.sent == x.sent - 1 && y.inflight < x.inflight
            && Outcomes(y.bd, y.completed, y.sent, failed) == Outcomes(x.bd, y.completed, y.sent, failed)
  {
    ReclaimableIffSent(x);
    ReclaimOneKeepsInv(x);
    var y := ReclaimOne(x);
    forall i | 0 <= i < SLOTS && Among(y.completed, y.sent, i) ensures y.bd[i] == x.bd[i] {
      AmongNext(x.completed, x.sent, i);
    }
    OutcomesBeside(x.bd, y.bd, y.completed, y.sent, failed);
  }

  /** Each reclaimed descriptor is counted by its own status. */
  lemma {:induction false} ReclaimCounts(x: Tx)
    requires Inv(x)
    ensures var r := ReclaimAll(x);
            && r.done == x.done + Outcomes(x.bd, x.completed, x.sent, false)
            && r.errors == x.errors + Outcomes(x.bd, x.completed, x.sent, true)
    decreases x.inflight
  {
    ReclaimableIffSent(x);
    if x.sent == 0 {
    } else {
      OneReclaimed(x, false);
      OneReclaimed(x, true);
      ReclaimCounts(ReclaimOne(x));
    }
  }

  /** Each reclaimed descriptor is cleared, and no other descriptor changes. */
  lemma {:induction false} ReclaimClears(x: Tx)
    requires Inv(x)
    ensures var r := ReclaimAll(x);
            && |r.bd| == SLOTS
            && forall i :: 0 <= i < SLOTS ==>
                 r.bd[i] == if Among(x.completed, x.sent, i) then Bd(x.bd[i].buffer, 0, 0) else x.bd[i]
    decreases x.inflight
  {
    ReclaimableIffSent(x);
    if x.sent == 0 {
    } else {
      ReclaimOneKeepsInv(x);
      ReclaimClears(ReclaimOne(x));
      forall i | 0 <= i < SLOTS
        ensures Among(x.completed, x.sent, i) <==> i == x.completed || Among(Next(x.completed, SLOTS), x.sent - 1, i)
        ensures !Among(Next(x.completed, SLOTS), x.sent - 1, x.completed)
      {
        AmongNext(x.completed, x.sent, i);
      }
    }
  }

  /** What the engine does while the CPU waits: it completes descriptors with these statuses. */
  function Progress(x: Tx, statuses: seq<nat>): Tx
    requires Inv(x)
    ensures Inv(Progress(x, statuses)) && Progress(x, statuses).inflight == x.inflight
    ensures Progress(x, statuses).populated == x.populated
    decreases |statuses|
  {
    if statuses == [] || x.sent >= x.inflight || !Finished(statuses[0]) then x
    else
      CompleteKeepsInv(x, statuses[0]);
      Progress(Complete(x, statuses[0]), statuses[1..])
  }

  class Driver {
    const bd: array<Bd>
    var populated: nat
    var completed: nat
    var inflight: nat
    var startOk: nat
    var done: nat
    var errors: nat
    var busy: nat
    var sent: nat        // MM2S: how many in-flight descriptors it has completed

    ghost function State(): Tx
      reads this, bd
    {
      Tx(bd[..], populated, completed, inflight, startOk, done, errors, sent)
    }

    ghost predicate Valid()
      reads this, bd
    {
      Inv(State())
    }

    /** emz_tx_direct_start. */
    constructor ()
      ensures Valid() && State() == Start() && busy == 0 && fresh(bd)
    {
      bd := new Bd[SLOTS](i => Bd(None, 0, 0));
      populated, completed, inflight, startOk, done, errors, busy, sent := 0, 0, 0, 0, 0, 0, 0, 0;
      new;
      assert bd[..] == Start().bd;
      StartInv();
    }

    /** The reclaim loop. */
    method ReclaimLoop() returns (reclaimed: nat)
      requires Valid()
      modifies this`completed, this`inflight, this`done, this`errors, this`sent, bd
      ensures Valid() && State() == ReclaimAll(old(State()))
      ensures reclaimed == old(sent) && sent == 0
    {
      reclaimed := 0;
      ghost var total := ReclaimAll(State());
      while inflight > 0
        invariant Valid() && ReclaimAll(State()) == total
        invariant reclaimed + sent == old(sent)
        decreases inflight
      {
        ReclaimableIffSent(State());
        var index := completed;
        var status := bd[index].status;
        if !Finished(status) {
          break;
        }
        ReclaimOneKeepsInv(State());
        ghost var next := ReclaimOne(State());
        bd[index] := bd[index].(control := 0, status := 0);
        completed := Next(index, SLOTS);
        inflight := inflight - 1;
        reclaimed := reclaimed + 1;
        if Failed(status) {
          errors := errors + 1;
        } else {
          done := done + 1;
        }
        sent := sent - 1;
        assert State() == next;
      }
      ReclaimableIffSent(State());
    }

    /** emz_tx_direct_reclaim: every completed descriptor, in ring order, counted by its own status and cleared. */
    method Reclaim() returns (reclaimed: nat)
      requires Valid()
      modifies this`completed, this`inflight, this`done, this`errors, this`sent, bd
      ensures Valid() && State() == ReclaimAll(old(State())) && reclaimed == old(sent) && sent == 0
      ensures done == old(done) + Outcomes(old(bd[..]), old(completed), reclaimed, false)
      ensures errors == old(errors) + Outcomes(old(bd[..]), old(completed), reclaimed, true)
      ensures forall i :: 0 <= i < SLOTS ==>
                bd[i] == if Among(old(completed), reclaimed, i) then Bd(old(bd[i].buffer), 0, 0) else old(bd[i])
    {
      ReclaimCounts(State());
      ReclaimClears(State());
      ghost var r := ReclaimAll(State());
      reclaimed := ReclaimLoop();
      assert bd[..] == r.bd;
    }

    /** What the engine writes while the CPU busy-waits for a microsecond. */
    method Wait(statuses: seq<nat>)
      requires Valid()
      modifies this`sent, bd
      ensures Valid() && State() == Progress(old(State()), statuses)
    {
      var left := statuses;
      ghost var total := Progress(State(), statuses);
      while left != [] && sent < inflight && Finished(left[0])
        invariant Valid() && Progress(State(), left) == total
        decreases |left|
      {
        CompleteKeepsInv(State(), left[0]);
        ghost var next := Complete(State(), left[0]);
        var i := Add(completed, sent, SLOTS);
        bd[i] := bd[i].(status := left[0]);
        sent := sent + 1;
        left := left[1..];
        assert State() == next;
      }
    }

    /** Reclaim, as the reservation sees it. */
    method Free()
      requires Valid()
      modifies this`completed, this`inflight, this`done, this`errors, this`sent, bd
      ensures Valid() && sent == 0 && inflight == old(inflight) - old(sent)
      ensures old(OwnBuffers(State())) ==> OwnBuffers(State())
    {
      ReclaimAllKeepsInv(State());
      var reclaimed := Reclaim();
    }

    /** One round of the wait on a full ring. */
    method WaitAndFree(statuses: seq<nat>)
      requires Valid() && sent == 0 && inflight == SLOTS
      modifies this`completed, this`inflight, this`done, this`errors, this`sent, bd
      ensures Valid() && sent == 0 && inflight <= SLOTS && (inflight < SLOTS <==> Moves(statuses))
      ensures old(OwnBuffers(State())) ==> OwnBuffers(State())
    {
      ProgressMoves(State(), statuses);
      Wait(statuses);
      Free();
    }

    /** emz_tx_direct_reserve; progress(w) is what the engine completes during the w-th wait. It
        fails exactly if the ring is full and 2000 waits pass without a completion. */
    method Reserve(progress: nat -> seq<nat>) returns (ret: int, descriptor: nat)
      requires Valid()
      modifies this`completed, this`inflight, this`done, this`errors, this`sent, this`busy, bd
      ensures Valid()
      ensures ret == 0 || ret == -ENOSPC
      ensures ret == 0 <==> old(inflight) - old(sent) < SLOTS || exists w :: 0 <= w < MAX_WAITS && Moves(progress(w))
      ensures ret == 0 ==> inflight < SLOTS && descriptor == populated && busy == old(busy)
      ensures ret != 0 ==> inflight == SLOTS && busy == old(busy) + 1
      ensures old(OwnBuffers(State())) ==> OwnBuffers(State())
      ensures ret == 0 && old(OwnBuffers(State())) ==> !Referenced(State(), descriptor)
    {
      Free();
      var waits := 0;
      while inflight >= SLOTS
        invariant Valid() && waits <= MAX_WAITS && sent == 0 && busy == old(busy)
        invariant old(OwnBuffers(State())) ==> OwnBuffers(State())
        invariant inflight < SLOTS <==>
          old(inflight) - old(sent) < SLOTS || exists w :: 0 <= w < waits && Moves(progress(w))
        decreases MAX_WAITS - waits
      {
        if waits >= MAX_WAITS {
          busy := busy + 1;
          return -ENOSPC, 0;
        }
        WaitAndFree(progress(waits));
        waits := waits + 1;
      }
      descriptor := populated;
      if OwnBuffers(State()) {
        NextBufferFree(State());
      }
      ret := 0;
    }

    /** emz_setup_dma_tx_direct_transfer. */
    method SetUp(len: nat) returns (ret: int)
      requires Valid()
      modifies this`populated, this`inflight, this`startOk, this`busy, bd
      ensures Valid()
      ensures ret == (if old(inflight) < SLOTS then 0 else -ENOSPC)
      ensures Some(State()) == if ret == 0 then TxRing.Setup(old(State()), len) else Some(old(State()))
      ensures busy == old(busy) + if ret == 0 then 0 else 1
    {
      if inflight >= SLOTS {
        busy := busy + 1;
        return -ENOSPC;
      }
      PostKeepsInv(State(), populated, len);
      var current := populated;
      bd[current] := Bd(Some(current), len, bd[current].status);
      bd[current] := bd[current].(status := 0);
      populated := Next(current, SLOTS);
      inflight := inflight + 1;
      startOk := startOk + 1;
      assert State() == Post(old(State()), old(populated), len);
      return 0;
    }
  }

  /** A wait in which the engine completes at least one descriptor of a full ring. */
  predicate Moves(statuses: seq<nat>) {
    statuses != [] && Finished(statuses[0])
  }

  lemma ProgressMoves(x: Tx, statuses: seq<nat>)
    requires Inv(x) && x.sent == 0 && x.inflight == SLOTS
    ensures Progress(x, statuses).sent > 0 <==> Moves(statuses)
    ensures OwnBuffers(x) ==> OwnBuffers(Progress(x, statuses))
  {
    ProgressKeeps(x, statuses);
    if Moves(statuses) {
      CompleteKeepsInv(x, statuses[0]);
      ProgressKeeps(Complete(x, statuses[0]), statuses[1..]);
    }
  }

  lemma {:induction false} ProgressKeeps(x: Tx, statuses: seq<nat>)
    requires Inv(x)
    ensures Progress(x, statuses).sent >= x.sent
    ensures OwnBuffers(x) ==> OwnBuffers(Progress(x, statuses))
    decreases |statuses|
  {
    if statuses != [] && x.sent < x.inflight && Finished(statuses[0]) {
      CompleteKeepsInv(x, statuses[0]);
      ProgressKeeps(Complete(x, statuses[0]), statuses[1..]);
    }
  }
}
