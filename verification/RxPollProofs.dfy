/** A refill fills the ring or empties the free FIFO, and publishes; a poll ends with one and loses no buffer. */
module RxPollProofs {
  import opened Modular
  import opened Wrappers
  import opened Bits
  import opened BdStatus
  import opened RxRing
  import opened RxRingProofs
  import opened RxSystem
  import opened RxOwnership
  import opened RxPoll

  /** The newest post is published, if there was one after the first k. */
  ghost predicate Fresh(c: Core, k: nat) {
    c.ring.started && c.hist.posts > k ==> c.engine.tail == Some(c.ring.tail)
  }

  // ---- A received frame ----

  /** The length is the low 26 bits, cut to the buffer; a frame that was cut or has bit 30, 29 or 28 set has failed. */
  lemma ReceivedTells(status: nat)
    requires status < WORD
    ensures var (len, failed) := Received(status);
            var bits := And(status, 0x03FF_FFFF);
            && len == (if bits > 1518 then 1518 else bits)
            && (failed <==> And(status, 0x7000_0000) != 0 || bits > 1518)
  {
    StatusBits(status);
  }

  /** A frame is withheld from the ready FIFO exactly if it is whole and the interceptor takes it. */
  lemma KeptTells(rx: Buf, status: nat, intercept: Buf -> bool)
    requires status < WORD
    ensures var whole := And(status, 0x7000_0000) == 0 && And(status, 0x03FF_FFFF) <= 1518;
            KeptOne((Some(rx), status), intercept) == if whole && intercept(rx) then [] else [rx]
  {
    ReceivedTells(status);
  }

  // ---- A refill ----

  /** What n posts from the front of the free FIFO, published if there were any, make of a ring. */
  ghost predicate Posted(c: Core, free: seq<Buf>, n: nat, d: Core) {
    && n <= |free| && Inv(c) && Inv(d)
    && d.ring.posted == c.ring.posted + n && d.hist.posts == c.hist.posts + n && Queue(d) == Queue(c) + free[..n]
    && (n == 0 ==> d == c) && (n > 0 && c.ring.started ==> d.engine.tail == Some(d.ring.tail))
    && d.ring.started == c.ring.started && d.N() == c.N() && d.limit == c.limit
  }

  lemma PublishesPosts(c: Core, free: seq<Buf>, n: nat, posts: Core)
    requires Inv(c) && 0 < n <= |free| && Inv(posts) && Queue(posts) == Queue(c) + free[..n]
    requires posts.ring.posted == c.ring.posted + n && posts.hist.posts == c.hist.posts + n
    requires posts.ring.started == c.ring.started && posts.N() == c.N() && posts.limit == c.limit
    ensures Posted(c, free, n, UpdateTail(posts))
  {
    UpdateTailKeepsInv(posts);
    assert Queue(UpdateTail(posts)) == Queue(posts);
  }

  lemma RefillPosts(c: Core, free: seq<Buf>)
    requires Inv(c)
    ensures var n := Min(|free|, Min(c.N(), c.limit) - c.ring.posted);
            n >= 0 && Posted(c, free, n, Refilled(c, free).0) && Refilled(c, free).1 == Rotated(free, n)
  {
    var n := Min(|free|, Min(c.N(), c.limit) - c.ring.posted);
    if n > 0 {
      PostAllBeside(c, free[..n]);
      PostAllEnqueues(c, free[..n]);
      PostAllKeepsInv(c, free[..n]);
      PublishesPosts(c, free, n, PostAll(c, free[..n]));
    } else {
      assert Queue(c) + free[..0] == Queue(c);
    }
  }

  /**
   A refill posts from the front of the free FIFO until that is empty or the ring is full to the limit; the
   buffer it was refused goes to the back; and it publishes the newest slot exactly if it posted.
   */
  lemma RefillTells(c: Core, free: seq<Buf>)
    requires Inv(c)
    ensures var (d, f) := Refilled(c, free);
            var n := d.ring.posted - c.ring.posted;
            && 0 <= n && Posted(c, free, n, d) && (n == |free| || d.ring.posted == Min(c.N(), c.limit))
            && f == if n == |free| then [] else free[n + 1..] + [free[n]]
  {
    RefillPosts(c, free);
  }

  /** How often buffer b is in the ring or a FIFO. */
  function Places(c: Core, free: seq<Buf>, ready: seq<Buf>, b: Buf): nat {
    multiset(free)[b] + multiset(Recorded(c.ring.owner))[b] + multiset(ready)[b]
  }

  lemma PostRecords(c: Core, rx: Buf, b: Buf)
    requires Inv(c)
    ensures multiset(Recorded(PostOne(c, rx).0.ring.owner))[b]
         == multiset(Recorded(c.ring.owner))[b] + if PostOne(c, rx).1 then One(rx, b) else 0
  {
    if PostOne(c, rx).1 {
      RecordedUpdate(c.ring.owner, c.ring.refill, Some(rx), b);
    }
  }

  lemma LastOf(bufs: seq<Buf>, b: Buf)
    requires bufs != []
    ensures multiset(bufs)[b] == multiset(bufs[..|bufs| - 1])[b] + One(bufs[|bufs| - 1], b)
  {
    assert bufs == bufs[..|bufs| - 1] + [bufs[|bufs| - 1]];
  }

  lemma {:induction false} PostAllRecords(c: Core, bufs: seq<Buf>, b: Buf)
    requires Inv(c) && c.ring.posted + |bufs| <= c.N() && c.ring.posted + |bufs| <= c.limit
    ensures multiset(Recorded(PostAll(c, bufs).ring.owner))[b]
         == multiset(Recorded(c.ring.owner))[b] + multiset(bufs)[b]
    decreases |bufs|
  {
    if bufs == [] {
    } else {
      var n := |bufs| - 1;
      PostAllRecords(c, bufs[..n], b);
      PostAllBeside(c, bufs[..n]);
      PostAllKeepsInv(c, bufs[..n]);
      var before := PostAll(c, bufs[..n]);
      PostOneKeepsInv(before, bufs[n]);
      PostRecords(before, bufs[n], b);
      LastOf(bufs, b);
    }
  }

  lemma RotatedPlaces(free: seq<Buf>, n: nat, b: Buf)
    requires n <= |free|
    ensures multiset(free[..n])[b] + multiset(Rotated(free, n))[b] == multiset(free)[b]
  {
    if n < |free| {
      assert free == free[..n] + [free[n]] + free[n + 1..];
    } else {
      assert free[..n] == free;
    }
  }

  lemma RefillPlaces(c: Core, free: seq<Buf>, ready: seq<Buf>, b: Buf)
    requires Inv(c)
    ensures var (d, f) := Refilled(c, free); Places(d, f, ready, b) == Places(c, free, ready, b)
  {
    var n := Min(|free|, Min(c.N(), c.limit) - c.ring.posted);
    PostAllRecords(c, free[..n], b);
    RotatedPlaces(free, n, b);
  }

  // ---- A poll ----

  /** The oldest completion leaves the ring for the ready FIFO. */
  predicate Delivered(p: Pools, q: Pools, rx: Buf) {
    && q.ready == p.ready + [rx] && q.free == p.free
    && q.core.ring.posted == p.core.ring.posted - 1 && q.core.hist.posts == p.core.hist.posts
  }

  /** It leaves for the free FIFO, and the ring is filled again at once from there. */
  ghost predicate Refilling(p: Pools, q: Pools, rx: Buf)
    requires Inv(p.core) && Inv(q.core) && Queue(p.core) != []
  {
    var free, n := p.free + [rx], q.core.ring.posted - p.core.ring.posted + 1;
    && q.ready == p.ready && 0 <= n <= |free|
    && Queue(q.core) == Queue(p.core)[1..] + free[..n]
    && q.free == (if n == |free| then [] else free[n + 1..] + [free[n]])
    && (n == |free| || q.core.ring.posted == Min(p.core.N(), p.core.limit))
    && (n > 0 && p.core.ring.started ==> q.core.engine.tail == Some(q.core.ring.tail))
  }

  lemma RefillingFolds(p: Pools, q: Pools, rx: Buf, c: Core)
    requires Inv(p.core) && Inv(c) && Queue(p.core) == [rx] + Queue(c) && q.ready == p.ready
    requires c.ring.posted == p.core.ring.posted - 1 && c.ring.started == p.core.ring.started
    requires c.N() == p.core.N() && c.limit == p.core.limit
    requires var n := q.core.ring.posted - c.ring.posted;
             var free := p.free + [rx];
             && 0 <= n && Posted(c, free, n, q.core)
             && (n == |free| || q.core.ring.posted == Min(c.N(), c.limit))
             && q.free == if n == |free| then [] else free[n + 1..] + [free[n]]
    ensures Refilling(p, q, rx)
  {
    assert Queue(p.core)[1..] == Queue(c);
  }

  /** What the round starts with. */
  ghost predicate Oldest(p: Pools, c: Core, rx: Buf, status: nat) {
    && Inv(p.core) && p.core.hist.done > 0 && Inv(c) && Consume(p.core) == (c, Frame(rx, status))
    && Queue(p.core) == [rx] + Queue(c)
    && c.ring.posted == p.core.ring.posted - 1 && c.hist.posts == p.core.hist.posts
    && c.ring.started == p.core.ring.started && c.N() == p.core.N() && c.limit == p.core.limit
  }

  lemma OldestIs(p: Pools, c: Core, rx: Buf, status: nat)
    requires Inv(p.core) && p.core.hist.done > 0 && Consume(p.core) == (c, Frame(rx, status))
    ensures Oldest(p, c, rx, status)
    ensures var i := p.core.ring.consume;
            p.core.ring.owner[i] == Some(rx) && p.core.ring.bd[i].status == status
  {
    ConsumeKeepsInv(p.core);
    ConsumeDequeues(p.core);
  }

  lemma KeptRound(p: Pools, intercept: Buf -> bool, c: Core, rx: Buf, status: nat)
    requires Oldest(p, c, rx, status) && (Received(status).1 || !intercept(rx))
    ensures var q := PollOnce(p, intercept);
            Delivered(p, q, rx) && Queue(q.core) == Queue(p.core)[1..]
  {
    assert PollOnce(p, intercept) == Pools(c, p.free, p.ready + [rx]);
    assert Queue(p.core)[1..] == Queue(c);
  }

  lemma TakenRound(p: Pools, intercept: Buf -> bool, c: Core, rx: Buf, status: nat)
    requires Oldest(p, c, rx, status) && !Received(status).1 && intercept(rx)
    ensures Queue(p.core) != [] && Refilling(p, PollOnce(p, intercept), rx)
  {
    PollOnceReleases(p, intercept, c, rx, status);
    RefillTells(c, p.free + [rx]);
    RefillingFolds(p, PollOnce(p, intercept), rx, c);
  }

  /**
   One round of the poll takes the oldest posted buffer: it goes to the ready FIFO, unless its frame is whole
   and the interceptor takes it, in which case it is released and the ring filled again.
   */
  lemma RoundTells(p: Pools, intercept: Buf -> bool, rx: Buf, status: nat)
    requires Inv(p.core) && p.core.hist.done > 0
    requires p.core.ring.owner[p.core.ring.consume] == Some(rx) && p.core.ring.bd[p.core.ring.consume].status == status
    ensures var q := PollOnce(p, intercept);
            && Queue(p.core) != [] && Queue(p.core)[0] == rx
            && if Failed(status) || Length(status) > 1518 || !intercept(rx) then
                 Delivered(p, q, rx) && Queue(q.core) == Queue(p.core)[1..]
               else Refilling(p, q, rx)
  {
    OldestFirst(p.core);
    var (c, r) := Consume(p.core);
    OldestIs(p, c, r.rx, r.status);
    if Received(status).1 || !intercept(rx) {
      KeptRound(p, intercept, c, rx, status);
    } else {
      TakenRound(p, intercept, c, rx, status);
    }
  }

  lemma ConsumeRecords(c: Core, b: Buf)
    requires Inv(c) && Consume(c).1.Frame?
    ensures multiset(Recorded(Consume(c).0.ring.owner))[b] + One(Consume(c).1.rx, b)
         == multiset(Recorded(c.ring.owner))[b]
  {
    RecordedUpdate(c.ring.owner, c.ring.consume, None, b);
  }

  lemma PollOncePlaces(p: Pools, intercept: Buf -> bool, b: Buf)
    requires Inv(p.core) && p.core.hist.done > 0
    ensures var q := PollOnce(p, intercept);
            Places(q.core, q.free, q.ready, b) == Places(p.core, p.free, p.ready, b)
  {
    OldestFirst(p.core);
    var (c, r) := Consume(p.core);
    ConsumeRecords(p.core, b);
    RefillPlaces(c, p.free + [r.rx], p.ready, b);
  }

  lemma ConsumeFresh(c: Core, k: nat)
    requires Inv(c) && Fresh(c, k)
    ensures var d := Consume(c).0;
            Fresh(d, k) && d.ring.started == c.ring.started && d.N() == c.N() && d.limit == c.limit
  {
  }

  lemma PostedFresh(c: Core, free: seq<Buf>, n: nat, d: Core, k: nat)
    requires Posted(c, free, n, d) && Fresh(c, k)
    ensures Fresh(d, k)
  {
  }

  lemma PollOnceFresh(p: Pools, intercept: Buf -> bool, k: nat)
    requires Inv(p.core) && p.core.hist.done > 0 && Fresh(p.core, k)
    ensures var q := PollOnce(p, intercept);
            && Fresh(q.core, k) && q.core.ring.started == p.core.ring.started
            && q.core.N() == p.core.N() && q.core.limit == p.core.limit
  {
    OldestFirst(p.core);
    ConsumeFresh(p.core, k);
    var (c, r) := Consume(p.core);
    var free := p.free + [r.rx];
    RefillTells(c, free);
    var d := Refilled(c, free).0;
    PostedFresh(c, free, d.ring.posted - c.ring.posted, d, k);
    assert PollOnce(p, intercept).core == d || PollOnce(p, intercept).core == c;
  }

  lemma {:induction false} PollAllTells(p: Pools, intercept: Buf -> bool, k: nat, b: Buf)
    requires Inv(p.core) && Fresh(p.core, k)
    ensures var q := PollAll(p, intercept);
            && Places(q.core, q.free, q.ready, b) == Places(p.core, p.free, p.ready, b)
            && Fresh(q.core, k) && q.core.ring.started == p.core.ring.started
            && q.core.N() == p.core.N() && q.core.limit == p.core.limit
    decreases p.core.hist.done
  {
    if p.core.hist.done == 0 {
    } else {
      PollOncePlaces(p, intercept, b);
      PollOnceFresh(p, intercept, k);
      PollAllTells(PollOnce(p, intercept), intercept, k, b);
    }
  }

  /** Every buffer of the ring and the two FIFOs. */
  function Buffers(c: Core, free: seq<Buf>, ready: seq<Buf>): multiset<Buf> {
    multiset(free) + multiset(Recorded(c.ring.owner)) + multiset(ready)
  }

  lemma PollKeepsBuffers(p: Pools, intercept: Buf -> bool)
    requires Inv(p.core)
    ensures var r := WholePoll(p, intercept);
            Buffers(r.core, r.free, r.ready) == Buffers(p.core, p.free, p.ready)
  {
    var r := WholePoll(p, intercept);
    forall b: Buf ensures Buffers(r.core, r.free, r.ready)[b] == Buffers(p.core, p.free, p.ready)[b] {
      PollTells(p, intercept, b);
    }
  }

  /**
   A poll that completed anything ends with an empty free FIFO or a ring full to the limit, and with its newest
   post published; one that completed nothing changes nothing; and no buffer is lost or doubled.
   */
  lemma PollTells(p: Pools, intercept: Buf -> bool, b: Buf)
    requires Inv(p.core)
    ensures var r := WholePoll(p, intercept);
            && Places(r.core, r.free, r.ready, b) == Places(p.core, p.free, p.ready, b)
            && r.core.hist.posts >= p.core.hist.posts && Fresh(r.core, p.core.hist.posts)
            && r.core.hist.done == 0 && r.core.ring.started == p.core.ring.started
            && r.core.N() == p.core.N() && r.core.limit == p.core.limit
            && (p.core.hist.done == 0 ==> r == p)
            && (p.core.hist.done > 0 ==> r.free == [] || r.core.ring.posted == Min(p.core.N(), p.core.limit))
  {
    PollAllTells(p, intercept, p.core.hist.posts, b);
    if p.core.hist.done > 0 {
      var q := PollAll(p, intercept);
      RefillTells(q.core, q.free);
      RefillPlaces(q.core, q.free, q.ready, b);
    }
  }
}
