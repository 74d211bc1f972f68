/**
 The receive descriptor ring that the Ethernet driver shares with the S2MM channel of the AXI
 DMA engine: what each lock-protected section of the driver, and each step of the engine, does
 to the ring. `Inv` is what every step keeps (RxRingProofs), whatever the interleaving.
 */
module RxRing {
  import opened Modular
  import opened Wrappers
  import opened BdStatus

  /** A receive buffer, named by its index in `rx_buffer[]`. */
  type Buf = nat

  /** EMZ_ETH_BUFFER_SIZE: the length programmed in every descriptor. */
  const BUFFER_SIZE: nat := 1518

  /** A buffer descriptor in the memory both sides can see. */
  datatype Bd = Bd(address: Option<Buf>, control: nat, status: nat)

  /** The driver's side: `rx_bd_ring`, `rx_bd_buffer`, the indices and the two counts. */
  datatype Ring = Ring(bd: seq<Bd>, owner: seq<Option<Buf>>,
                       consume: nat, refill: nat, tail: nat,
                       posted: nat, inflight: nat, started: bool)

  /** The engine's side. `cur` is the next descriptor to process, `tail` the TAILDESC register,
      and `caught` says that the descriptor at TAILDESC has been processed, so it pauses there. */
  datatype Engine = Engine(run: bool, cur: nat, tail: Option<nat>, caught: bool)

  /** A TAILDESC write: the slot it names and how many descriptors had been posted by then. */
  datatype TailWrite = TailWrite(slot: nat, posts: nat)

  /** What the code does not store: descriptors posted since the ring was last rebuilt, completions
      not yet consumed, and the TAILDESC writes since the engine was last reset. */
  datatype History = History(posts: nat, done: nat, tails: seq<TailWrite>)

  datatype Core = Core(ring: Ring, engine: Engine, hist: History, limit: nat) {
    function N(): nat {
      |ring.owner|
    }

    predicate Shape() {
      && |ring.bd| == N()
      && ring.consume < N() && ring.refill < N() && ring.tail < N()
      && engine.cur < N()
      && (engine.tail.Some? ==> engine.tail.value < N())
    }

    /** How far slot i lies ahead of the consume index. */
    function Off(i: nat): nat
      requires ring.consume < N() && i < N()
    {
      Ahead(ring.consume, i, N())
    }
  }

  // ---- Lock-protected sections and register writes of the driver ----

  /** emz_rx_direct_post_one with emz_rx_direct_program_bd; the flag is its return value. */
  function PostOne(c: Core, rx: Buf): (Core, bool)
    requires c.Shape()
  {
    var i := c.ring.refill;
    if c.ring.owner[i].Some? || c.ring.inflight >= c.limit then (c, false)
    else
      var ring := c.ring.(bd := c.ring.bd[i := Bd(Some(rx), BUFFER_SIZE, 0)],
                          owner := c.ring.owner[i := Some(rx)],
                          posted := c.ring.posted + 1,
                          inflight := c.ring.inflight + 1,
                          refill := Next(i, c.N()),
                          tail := i);
      (c.(ring := ring, hist := c.hist.(posts := c.hist.posts + 1)), true)
  }

  /** A write to S2MM TAILDESC. A paused engine that is given the tail it is already parked at
      has nothing to fetch; any other value opens the descriptors up to and including that one. */
  function WriteTail(c: Core, slot: nat): Core {
    c.(engine := c.engine.(tail := Some(slot),
                           caught := c.engine.caught && c.engine.tail == Some(slot)),
       hist := c.hist.(tails := c.hist.tails + [TailWrite(slot, c.hist.posts)]))
  }

  /** emz_rx_direct_update_tail. */
  function UpdateTail(c: Core): Core {
    if !c.ring.started then c else WriteTail(c, c.ring.tail)
  }

  datatype PollResult = Nothing | NoBuffer | Frame(rx: Buf, status: nat)

  /** The lock-protected part of one emz_rx_direct_poll iteration. */
  function Consume(c: Core): (Core, PollResult)
    requires c.Shape()
  {
    var i := c.ring.consume;
    var status := c.ring.bd[i].status;
    if !Finished(status) then (c, Nothing)
    else if c.ring.owner[i].None? then (c, NoBuffer)
    else
      var ring := c.ring.(bd := c.ring.bd[i := c.ring.bd[i].(status := 0)],
                          owner := c.ring.owner[i := None],
                          posted := if c.ring.posted > 0 then c.ring.posted - 1 else 0,
                          consume := Next(i, c.N()),
                          inflight := if c.ring.inflight > 0 then c.ring.inflight - 1 else 0);
      var done := if c.hist.done > 0 then c.hist.done - 1 else 0;
      (c.(ring := ring, hist := c.hist.(done := done)), Frame(c.ring.owner[i].value, status))
  }

  /** DMACR.Reset: the engine stops and forgets TAILDESC. */
  function ResetEngine(c: Core): Core {
    c.(engine := Engine(false, c.engine.cur, None, false), hist := c.hist.(tails := []))
  }

  /** The lock-protected rebuild in emz_rx_direct_recover. Addresses stay, lengths are cleared. */
  function Rebuild(c: Core): Core {
    c.(ring := Ring(seq(|c.ring.bd|, i requires 0 <= i < |c.ring.bd| => Bd(c.ring.bd[i].address, 0, 0)),
                    seq(|c.ring.owner|, i => None), 0, 0, 0, 0, 0, false),
       hist := c.hist.(posts := 0, done := 0))
  }

  /** The CURDESC write of emz_rx_direct_arm. */
  function ArmCurrent(c: Core): Core {
    c.(engine := c.engine.(cur := c.ring.consume))
  }

  /** The DMACR.RS write of emz_rx_direct_arm. */
  function ArmRun(c: Core): Core {
    c.(engine := c.engine.(run := true))
  }

  /** The lock-protected end of emz_rx_direct_arm: publish only if something is posted. */
  function ArmStart(c: Core): Core {
    var c' := c.(ring := c.ring.(started := true));
    if c.ring.posted > 0 then WriteTail(c', c.ring.tail) else c'
  }

  // ---- Steps of the engine ----

  /** The engine has a descriptor to fetch. */
  predicate Fetching(c: Core) {
    c.engine.run && c.engine.tail.Some? && !c.engine.caught
  }

  /** A descriptor whose length field is zero transfers nothing. */
  predicate ZeroLength(c: Core)
    requires c.Shape()
  {
    c.ring.bd[c.engine.cur].control == 0
  }

  /** The engine receives a frame into the descriptor at `cur` and writes its status back. */
  function Complete(c: Core, status: nat): Core
    requires c.Shape() && Fetching(c) && !ZeroLength(c) && Finished(status)
  {
    var i := c.engine.cur;
    c.(ring := c.ring.(bd := c.ring.bd[i := c.ring.bd[i].(status := status)]),
       engine := c.engine.(cur := Next(i, c.N()), caught := c.engine.tail == Some(i)),
       hist := c.hist.(done := c.hist.done + 1))
  }

  /** The engine rejects a zero-length descriptor: it halts, and may flag the error in the status. */
  function Reject(c: Core, status: nat): Core
    requires c.Shape() && Fetching(c) && ZeroLength(c)
  {
    var i := c.engine.cur;
    c.(ring := c.ring.(bd := c.ring.bd[i := c.ring.bd[i].(status := status)]),
       engine := c.engine.(run := false))
  }

  /** Any DMA or SG error clears RS. */
  function Halt(c: Core): Core {
    c.(engine := c.engine.(run := false))
  }

  // ---- What every step keeps ----

  /** The posted slots are the window of `posted` slots that starts at the consume index. */
  ghost predicate Window(c: Core)
    requires c.Shape()
  {
    && c.ring.posted == c.ring.inflight <= c.N()
    && c.ring.posted <= c.limit
    && c.ring.refill == Add(c.ring.consume, c.ring.posted, c.N())
    && (forall i :: 0 <= i < c.N() ==> (c.ring.owner[i].Some? <==> c.Off(i) < c.ring.posted))
    && (forall i :: 0 <= i < c.N() ==> c.ring.owner[i].Some? ==>
          c.ring.bd[i].address == c.ring.owner[i] && c.ring.bd[i].control == BUFFER_SIZE)
  }

  /** The indices against the unbounded count of posts since the last rebuild. */
  ghost predicate Counted(c: Core)
    requires c.Shape()
  {
    && c.ring.posted <= c.hist.posts
    && c.ring.refill == c.hist.posts % c.N()
    && (c.hist.posts > 0 ==> c.ring.tail == (c.hist.posts - 1) % c.N() && Next(c.ring.tail, c.N()) == c.ring.refill)
    && (c.hist.posts == 0 ==>
          c.ring.tail == 0 == c.ring.consume && forall i :: 0 <= i < c.N() ==> c.ring.bd[i].control == 0)
  }

  /** Completions are a prefix of the window; every other slot has a clear status. The exception is
      slot 0 of a ring that nothing was posted to, after the engine rejected it and halted. */
  ghost predicate Statuses(c: Core)
    requires c.Shape()
  {
    && c.hist.done <= c.ring.posted
    && forall i :: 0 <= i < c.N() ==>
         if c.Off(i) < c.hist.done then Finished(c.ring.bd[i].status)
         else c.ring.bd[i].status == 0 || (i == 0 == c.hist.posts && !c.engine.run)
  }

  /** TAILDESC names a slot nothing was ever posted to, on a ring that is armed but empty. */
  predicate StaleTail(c: Core) {
    c.hist.posts == 0 && c.engine.tail == Some(0)
  }

  /** A running engine stands right after the completions, and its tail is inside the window. */
  ghost predicate EngineInStep(c: Core)
    requires c.Shape()
  {
    c.engine.run ==>
      && c.engine.cur == Add(c.ring.consume, if c.hist.done <= c.N() then c.hist.done else 0, c.N())
      && (c.engine.tail.None? ==>
            c.hist.done == 0 && c.ring.posted == c.hist.posts && !c.engine.caught)
      && (c.engine.tail.Some? ==>
            if c.engine.caught then Next(c.engine.tail.value, c.N()) == c.engine.cur && c.hist.posts > 0
            else StaleTail(c) || c.hist.done <= c.Off(c.engine.tail.value) < c.ring.posted)
  }

  /** From the rebuild until arming ends nothing has completed and no tail is published. */
  ghost predicate Booting(c: Core)
    requires c.Shape()
  {
    !c.ring.started ==>
      && c.hist.done == 0 && c.ring.posted == c.hist.posts && c.ring.consume == 0
      && (forall i :: 0 <= i < c.N() ==> c.ring.bd[i].status == 0)
      && (c.engine.run ==> c.engine.tail.None?)
  }

  /** In posting order the published tail never moves backwards, and every TAILDESC write names
      the newest posted slot. */
  ghost predicate TailsForward(c: Core) {
    forall j :: 0 <= j < |c.hist.tails| ==>
      && c.hist.tails[j].posts <= c.hist.posts
      && (forall k :: 0 <= k < j ==> c.hist.tails[k].posts <= c.hist.tails[j].posts)
      && 0 < c.N()
      && c.hist.tails[j].slot ==
           if c.hist.tails[j].posts == 0 then 0 else (c.hist.tails[j].posts - 1) % c.N()
  }

  ghost predicate Inv(c: Core) {
    && c.Shape() && Window(c) && Counted(c) && Statuses(c) && EngineInStep(c) && Booting(c)
    && (c.ring.started || c.engine.run ==> TailsForward(c))
    && (!c.ring.started && c.engine.run ==> c.hist.tails == [])
  }

  /** The scatter-gather rule the driver states: every descriptor from CURDESC through TAILDESC
      inclusive has a recorded buffer, a length, and a clear status. */
  ghost predicate TailCovered(c: Core)
    requires c.Shape()
  {
    Fetching(c) ==>
      forall k :: 0 <= k <= Ahead(c.engine.cur, c.engine.tail.value, c.N()) ==>
        var i := Add(c.engine.cur, k, c.N());
        && c.ring.owner[i].Some? && c.ring.bd[i].address == c.ring.owner[i]
        && c.ring.bd[i].control == BUFFER_SIZE && c.ring.bd[i].status == 0
  }

  /** A publication that names a slot nothing was posted to: the ring is armed, no tail has been
      published since the reset, and it is empty. */
  predicate EmptyPublication(c: Core) {
    c.ring.started && c.engine.run && c.engine.tail.None? && c.ring.posted == 0
  }

  /** Inv without its exception: no running engine has a stale tail, and every slot after the
      completions has a clear status. */
  ghost predicate Clean(c: Core) {
    && Inv(c)
    && !(c.engine.run && StaleTail(c))
    && forall i :: 0 <= i < c.N() && c.Off(i) >= c.hist.done ==> c.ring.bd[i].status == 0
  }

  /** The posted buffers from the consume index on, oldest first. */
  ghost function Queue(c: Core): (q: seq<Buf>)
    requires c.Shape() && Window(c)
    ensures |q| == c.ring.posted
  {
    seq(c.ring.posted, k requires 0 <= k < c.ring.posted => c.ring.owner[At(c, k)].value)
  }

  /** The slot of the k-th posted buffer. */
  function At(c: Core, k: nat): (i: nat)
    requires c.Shape() && k < c.N()
    ensures i < c.N() && c.Off(i) == k
  {
    Add(c.ring.consume, k, c.N())
  }

  /** Frame length and error flag as the driver reports them: clamped to the buffer. */
  function Received(status: nat): (nat, bool) {
    if Length(status) > BUFFER_SIZE then (BUFFER_SIZE, true) else (Length(status), Failed(status))
  }

  /** Posting one buffer after the other. */
  function PostAll(c: Core, bufs: seq<Buf>): (c': Core)
    requires c.Shape()
    ensures c'.Shape() && c'.N() == c.N() && c'.limit == c.limit && c'.engine == c.engine
    decreases |bufs|
  {
    if bufs == [] then c
    else PostOne(PostAll(c, bufs[..|bufs| - 1]), bufs[|bufs| - 1]).0
  }

  /** The completions not yet consumed, oldest first, as the recorded buffer and the status. */
  function Completions(c: Core): seq<(Option<Buf>, nat)>
    requires c.Shape() && c.hist.done <= c.N()
  {
    seq(c.hist.done, k requires 0 <= k < c.hist.done =>
      (c.ring.owner[At(c, k)], c.ring.bd[At(c, k)].status))
  }
}
