/**
 The transmit descriptor ring: senders reserve a slot under the transmit lock, fill its buffer,
 and set the descriptor up, while the MM2S engine completes descriptors at any time.
 */
module TxRing {
  import opened Modular
  import opened Wrappers
  import opened BdStatus

  /** EMZ_DMA_BUFFER_COUNT_TX. */
  const SLOTS: nat := 32

  /** A descriptor; `buffer` is the transmit buffer it points at. */
  datatype Bd = Bd(buffer: Option<nat>, control: nat, status: nat)

  /** `sent` counts the in-flight descriptors that the engine has completed and nobody reclaimed. */
  datatype Tx = Tx(bd: seq<Bd>, populated: nat, completed: nat, inflight: nat,
                   startOk: nat, done: nat, errors: nat, sent: nat)

  /** emz_tx_direct_start. */
  function Start(): Tx {
    Tx(seq(SLOTS, i => Bd(None, 0, 0)), 0, 0, 0, 0, 0, 0, 0)
  }

  predicate Shape(x: Tx) {
    |x.bd| == SLOTS && x.populated < SLOTS && x.completed < SLOTS
  }

  /** How far slot i lies ahead of the oldest in-flight descriptor. */
  function Off(x: Tx, i: nat): nat
    requires x.completed < SLOTS && i < SLOTS
  {
    Ahead(x.completed, i, SLOTS)
  }

  /** The oldest in-flight descriptor can be reclaimed. */
  predicate Reclaimable(x: Tx)
    requires Shape(x)
  {
    x.inflight > 0 && Finished(x.bd[x.completed].status)
  }

  /** One round of the loop in emz_tx_direct_reclaim. */
  function ReclaimOne(x: Tx): Tx
    requires Shape(x) && Reclaimable(x)
  {
    var i := x.completed;
    var failed := Failed(x.bd[i].status);
    x.(bd := x.bd[i := x.bd[i].(control := 0, status := 0)],
       completed := Next(i, SLOTS),
       inflight := x.inflight - 1,
       done := if failed then x.done else x.done + 1,
       errors := if failed then x.errors + 1 else x.errors,
       sent := if x.sent > 0 then x.sent - 1 else 0)
  }

  /** Publishing slot `populated` with a given buffer: the common part of setup and burst. */
  function Post(x: Tx, buffer: nat, len: nat): Tx
    requires Shape(x)
  {
    var i := x.populated;
    x.(bd := x.bd[i := Bd(Some(buffer), len, 0)],
       populated := Next(i, SLOTS),
       inflight := x.inflight + 1,
       startOk := x.startOk + 1)
  }

  /** emz_setup_dma_tx_direct_transfer; None is -ENOSPC. */
  function Setup(x: Tx, len: nat): Option<Tx>
    requires Shape(x)
  {
    if x.inflight >= SLOTS then None else Some(Post(x, x.populated, len))
  }

  /** The engine completes its oldest unfinished descriptor. */
  function Complete(x: Tx, status: nat): Tx
    requires Shape(x) && x.sent < x.inflight <= SLOTS && Finished(status)
  {
    var i := Add(x.completed, x.sent, SLOTS);
    x.(bd := x.bd[i := x.bd[i].(status := status)], sent := x.sent + 1)
  }

  // ---- What every step keeps ----

  /** Indices, the conservation of descriptors, and the completions as a prefix of the window. */
  ghost predicate Inv(x: Tx) {
    && Shape(x)
    && x.sent <= x.inflight <= SLOTS
    && x.populated == Add(x.completed, x.inflight, SLOTS)
    && x.startOk == x.done + x.errors + x.inflight
    && (forall i :: 0 <= i < SLOTS && Off(x, i) < x.inflight ==>
          if Off(x, i) < x.sent then Finished(x.bd[i].status) else x.bd[i].status == 0)
  }

  /** Every in-flight descriptor points at the buffer of its own slot. */
  ghost predicate OwnBuffers(x: Tx)
    requires Shape(x)
  {
    forall i :: 0 <= i < SLOTS && Off(x, i) < x.inflight ==> x.bd[i].buffer == Some(i)
  }

  /** Some in-flight descriptor points at buffer b. */
  ghost predicate Referenced(x: Tx, b: nat)
    requires Shape(x)
  {
    exists i :: 0 <= i < SLOTS && Off(x, i) < x.inflight && x.bd[i].buffer == Some(b)
  }

  lemma StartInv()
    ensures Inv(Start()) && OwnBuffers(Start())
  {
  }

  lemma ReclaimOneKeepsInv(x: Tx)
    requires Inv(x) && Reclaimable(x)
    ensures Inv(ReclaimOne(x)) && x.sent > 0 && ReclaimOne(x).sent == x.sent - 1
    ensures OwnBuffers(x) ==> OwnBuffers(ReclaimOne(x))
  {
    var x' := ReclaimOne(x);
    assert Off(x, x.completed) == 0;
    forall i | 0 <= i < SLOTS && i != x.completed
      ensures Off(x', i) == Off(x, i) - 1 && x'.bd[i] == x.bd[i]
    {
    }
    assert Off(x', x.completed) == SLOTS - 1;
  }

  /** Reclaiming goes on exactly as long as completions are left. */
  lemma ReclaimableIffSent(x: Tx)
    requires Inv(x)
    ensures Reclaimable(x) <==> x.sent > 0
  {
  }

  lemma PostKeepsInv(x: Tx, buffer: nat, len: nat)
    requires Inv(x) && x.inflight < SLOTS
    ensures Inv(Post(x, buffer, len))
    ensures OwnBuffers(x) && buffer == x.populated ==> OwnBuffers(Post(x, buffer, len))
  {
  }

  lemma CompleteKeepsInv(x: Tx, status: nat)
    requires Inv(x) && x.sent < x.inflight && Finished(status)
    ensures Inv(Complete(x, status))
    ensures OwnBuffers(x) ==> OwnBuffers(Complete(x, status))
  {
  }

  /** While there is room, the next slot's buffer is referenced by no in-flight descriptor. */
  lemma NextBufferFree(x: Tx)
    requires Inv(x) && OwnBuffers(x) && x.inflight < SLOTS
    ensures !Referenced(x, x.populated)
  {
  }

  // ---- Senders and engine interleaved ----

  /** The one sender that holds the transmit lock. */
  datatype Sender =
    | Outside
    | Reserving             // emz_tx_direct_reserve, reclaiming and waiting
    | Filling(slot: nat)    // reserved, writing the frame into the buffer
    | Draining              // burst: waiting until nothing is in flight
    | Bursting(first: nat)  // burst: posting descriptors for one buffer

  datatype System = System(tx: Tx, sender: Sender, bursts: nat)

  datatype Action =
    | Lock
    | LockBurst
    | Reclaim
    | Reserve               // success of the reservation
    | GiveUp                // time-out of a wait, or net_pkt_read failed
    | SetUp(len: nat)
    | BurstBegin
    | BurstPost(len: nat)
    | EngineDone(status: nat)

  /** One step; an action that is not enabled leaves the state as it is. */
  function Step(s: System, a: Action): System
    requires Shape(s.tx) && s.tx.inflight <= SLOTS
  {
    match a
    case Lock => if s.sender.Outside? then s.(sender := Reserving) else s
    case LockBurst => if s.sender.Outside? then s.(sender := Draining) else s
    case Reclaim =>
      if (s.sender.Reserving? || s.sender.Draining?) && Reclaimable(s.tx) then s.(tx := ReclaimOne(s.tx)) else s
    case Reserve =>
      if s.sender.Reserving? && s.tx.inflight < SLOTS then s.(sender := Filling(s.tx.populated)) else s
    case GiveUp => s.(sender := Outside)
    case SetUp(len) =>
      if s.sender.Filling? then
        match Setup(s.tx, len)
        case None => s.(sender := Outside)
        case Some(tx) => s.(tx := tx, sender := Outside)
      else s
    case BurstBegin =>
      if s.sender.Draining? && s.tx.inflight == 0
      then s.(sender := Bursting(s.tx.populated), bursts := s.bursts + 1) else s
    case BurstPost(len) =>
      if s.sender.Bursting? && s.tx.inflight < SLOTS
      then s.(tx := Post(s.tx, s.sender.first, len)) else s
    case EngineDone(status) =>
      if s.tx.sent < s.tx.inflight && Finished(status) then s.(tx := Complete(s.tx, status)) else s
  }

  /** Every in-flight descriptor points at one buffer. */
  ghost predicate AllAt(x: Tx, buffer: nat)
    requires Shape(x)
  {
    forall i :: 0 <= i < SLOTS && Off(x, i) < x.inflight ==> x.bd[i].buffer == Some(buffer)
  }

  ghost predicate Safe(s: System) {
    && Inv(s.tx)
    && (s.sender.Bursting? ==> AllAt(s.tx, s.sender.first))
    && (s.sender.Filling? ==> s.sender.slot == s.tx.populated && s.tx.inflight < SLOTS)
    && (s.bursts == 0 ==> OwnBuffers(s.tx) && !s.sender.Bursting?)
  }

  lemma StepSafe(s: System, a: Action)
    requires Safe(s)
    ensures Safe(Step(s, a))
  {
    match a
    case Reclaim => if Reclaimable(s.tx) { ReclaimOneKeepsInv(s.tx); }
    case SetUp(len) => if s.sender.Filling? { PostKeepsInv(s.tx, s.tx.populated, len); }
    case BurstPost(len) =>
      if s.sender.Bursting? && s.tx.inflight < SLOTS { PostKeepsInv(s.tx, s.sender.first, len); }
    case EngineDone(status) =>
      if s.tx.sent < s.tx.inflight && Finished(status) { CompleteKeepsInv(s.tx, status); }
    case _ =>
  }

  ghost function Run(s: System, acts: seq<Action>): (r: System)
    requires Safe(s)
    ensures Safe(r)
  {
    if acts == [] then s
    else
      var before := Run(s, acts[..|acts| - 1]);
      StepSafe(before, acts[|acts| - 1]);
      Step(before, acts[|acts| - 1])
  }

  function First(): System {
    System(Start(), Outside, 0)
  }

  lemma OutsideSafe(x: Tx)
    requires Inv(x) && OwnBuffers(x)
    ensures Safe(System(x, Outside, 0))
  {
  }

  lemma StartSafe()
    ensures Safe(First())
  {
    StartInv();
    OutsideSafe(Start());
  }

  ghost function After(acts: seq<Action>): (r: System)
    ensures Safe(r)
  {
    StartSafe();
    Run(First(), acts)
  }

  /** After any run the indices and the counters of the ring agree. */
  lemma Conservation(acts: seq<Action>)
    ensures var x := After(acts).tx;
            && x.populated == (x.completed + x.inflight) % SLOTS
            && x.inflight <= SLOTS
            && x.startOk == x.done + x.errors + x.inflight
  {
  }

  /** A burst starts on an empty ring: while it lasts, every in-flight descriptor sends its one buffer. */
  lemma BurstOwnsRing(acts: seq<Action>)
    requires After(acts).sender.Bursting?
    ensures AllAt(After(acts).tx, After(acts).sender.first)
  {
  }

  /** A reservation that succeeded is good: whatever the engine does meanwhile, the setup that
      follows it posts the reserved slot and does not report ENOSPC. */
  lemma ReservationHolds(acts: seq<Action>, len: nat)
    requires After(acts).sender.Filling?
    ensures var s := After(acts);
            && Setup(s.tx, len).Some?
            && Setup(s.tx, len).value.bd[s.sender.slot] == Bd(Some(s.sender.slot), len, 0)
            && Setup(s.tx, len).value.inflight == s.tx.inflight + 1
  {
  }

  /** In runs without a burst the buffer being filled is referenced by no in-flight descriptor. */
  lemma FilledBufferIsFree(acts: seq<Action>)
    requires After(acts).sender.Filling? && After(acts).bursts == 0
    ensures !Referenced(After(acts).tx, After(acts).sender.slot)
  {
  }
}
