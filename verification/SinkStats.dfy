/** The sink counters: what each update means, and the seqlock steps by which the writers store it word by word. */
module SinkStats {
  import opened Wrappers
  import opened Modular

  const EAGAIN: nat := 11

  /** The counters between updates. */
  datatype Sink = Sink(packets: nat, bytes: nat, errors: nat, eagain: nat, calls: nat, cycles: nat,
                       cyclesMax: nat, lastErrno: nat, firstCycle: nat, lastCycle: nat, lastLen: nat)

  const ZERO := Sink(0, 0, 0, 0, 0, 0, 0, 0, 0, 0, 0)

  const LONG: nat := 0x1_0000_0000_0000_0000

  /** A 64-bit counter after n more. */
  function Count64(c: nat, n: nat): nat {
    (c + n) % LONG
  }

  /** One accounted packet, error or receive call. */
  datatype Update = Packet(len: nat, now: nat) | Error(err: nat) | Receive(cost: nat)

  function Updated(s: Sink, u: Update): Sink {
    match u
    case Packet(len, now) =>
      s.(firstCycle := if s.packets == 0 then now else s.firstCycle,
         packets := Count64(s.packets, 1), bytes := Count64(s.bytes, len), lastLen := len, lastCycle := now)
    case Error(err) =>
      s.(errors := Count64(s.errors, 1), lastErrno := err,
         eagain := if err == EAGAIN then Count64(s.eagain, 1) else s.eagain)
    case Receive(cost) =>
      s.(calls := Count64(s.calls, 1), cycles := Count64(s.cycles, cost),
         cyclesMax := if cost > s.cyclesMax then cost else s.cyclesMax)
  }

  /** The counters after a number of whole updates. */
  function Total(done: seq<Update>): Sink {
    if done == [] then ZERO else Updated(Total(done[..|done| - 1]), done[|done| - 1])
  }

  const WORDS := 17

  /** The words of the block, as a little-endian 32-bit machine lays it out. */
  function Words(s: Sink): (w: seq<nat>)
    ensures |w| == WORDS
  {
    [s.packets % WORD, s.packets / WORD, s.bytes % WORD, s.bytes / WORD, s.errors % WORD, s.errors / WORD,
     s.eagain % WORD, s.eagain / WORD, s.calls % WORD, s.calls / WORD, s.cycles % WORD, s.cycles / WORD,
     s.cyclesMax, s.lastErrno, s.firstCycle, s.lastCycle, s.lastLen]
  }

  // ---- Memory over time ----

  /** The sequence word and the block at one instant, the updates completed by then and the one under way. */
  datatype Moment = Moment(count: nat, words: seq<nat>, done: seq<Update>, current: Option<Update>)

  datatype Event = Begin(u: Update) | Store(k: nat) | End | Elsewhere

  /** What the update under way leaves in the block. */
  function Target(m: Moment): (w: seq<nat>)
    ensures |w| == WORDS
  {
    match m.current
    case None => Words(Total(m.done))
    case Some(u) => Words(Updated(Total(m.done), u))
  }

  /** Writers are serialized by the lock, and store between the two increments only. */
  predicate Enabled(m: Moment, e: Event) {
    match e
    case Begin(_) => m.current == None
    case Store(k) => m.current.Some? && k < WORDS
    case End => m.current.Some? && m.words == Target(m)
    case Elsewhere => true
  }

  function Advance(m: Moment, e: Event): Moment
    requires Enabled(m, e) && |m.words| == WORDS
  {
    match e
    case Begin(u) => m.(count := Count(m.count, 1), current := Some(u))
    case Store(k) => m.(words := m.words[k := Target(m)[k]])
    case End => m.(count := Count(m.count, 1), done := m.done + [m.current.value], current := None)
    case Elsewhere => m
  }

  function Increments(m: Moment): nat {
    2 * |m.done| + if m.current.Some? then 1 else 0
  }

  /** Between updates the block holds the result of whole updates, and the sequence word is even. */
  predicate MomentOk(m: Moment) {
    && |m.words| == WORDS
    && m.count == Increments(m) % WORD
    && (m.current == None ==> m.words == Words(Total(m.done)))
  }

  lemma AdvanceOk(m: Moment, e: Event)
    requires MomentOk(m) && Enabled(m, e)
    ensures MomentOk(Advance(m, e))
    ensures Increments(m) <= Increments(Advance(m, e)) <= Increments(m) + 1
    ensures Increments(Advance(m, e)) == Increments(m) ==>
              Advance(m, e).done == m.done && Advance(m, e).current == m.current &&
              (m.current == None ==> Advance(m, e).words == m.words)
  {
    CountMod(Increments(m), 1);
    if e.End? {
      assert (m.done + [m.current.value])[..|m.done|] == m.done;
    }
  }

  predicate Initial(m: Moment) {
    m == Moment(0, Words(ZERO), [], None)
  }

  /** Every instant follows from the one before it. */
  ghost predicate History(h: seq<Moment>) {
    && h != [] && Initial(h[0])
    && forall i :: 0 < i < |h| ==> Follows(h[i - 1], h[i])
  }

  ghost predicate Follows(m: Moment, n: Moment) {
    |m.words| == WORDS && exists e :: Enabled(m, e) && n == Advance(m, e)
  }

  lemma {:induction false} HistoryOk(h: seq<Moment>, i: nat)
    requires History(h) && i < |h|
    ensures MomentOk(h[i])
  {
    if i == 0 {
    } else {
      HistoryOk(h, i - 1);
      assert Follows(h[i - 1], h[i]);
      var e :| Enabled(h[i - 1], e) && h[i] == Advance(h[i - 1], e);
      AdvanceOk(h[i - 1], e);
    }
  }

  /** Increments only grow; while they stay, so does everything between updates. */
  lemma {:induction false} HistoryGrows(h: seq<Moment>, i: nat, j: nat)
    requires History(h) && i <= j < |h|
    ensures Increments(h[i]) <= Increments(h[j])
    ensures Increments(h[i]) == Increments(h[j]) ==>
              h[j].done == h[i].done && h[j].current == h[i].current &&
              (h[i].current == None ==> h[j].words == h[i].words)
    decreases j
  {
    if i == j {
    } else {
      HistoryGrows(h, i, j - 1);
      HistoryOk(h, j - 1);
      assert Follows(h[j - 1], h[j]);
      var e :| Enabled(h[j - 1], e) && h[j] == Advance(h[j - 1], e);
      AdvanceOk(h[j - 1], e);
    }
  }

  lemma Parity(m: Moment)
    requires MomentOk(m)
    ensures m.count % 2 == 0 <==> m.current == None
  {
    var n := Increments(m);
    assert n == 2 * (n / WORD * 0x8000_0000) + n % WORD;
  }

  /** Fewer than 2^32 increments that leave the sequence word as it was are none. */
  lemma SameCount(a: nat, b: nat)
    requires a <= b < a + WORD && a % WORD == b % WORD
    ensures a == b
  {
    assert b - a == (b / WORD - a / WORD) * WORD;
  }

  /**
   A reader that finds the sequence word even before the block and unchanged after it, with fewer
   than 2^32 increments between, has read the block as it was after a whole number of updates.
   */
  lemma SnapshotIsConsistent(h: seq<Moment>, before: nat, when: seq<nat>, after: nat)
    requires History(h) && before <= after < |h| && |when| == WORDS
    requires forall k :: 0 <= k < WORDS ==> before <= when[k] <= after
    requires h[before].count % 2 == 0 && h[before].count == h[after].count
    requires Increments(h[after]) < Increments(h[before]) + WORD
    ensures forall k :: 0 <= k < WORDS ==> |h[when[k]].words| == WORDS
    ensures seq(WORDS, k requires 0 <= k < WORDS => h[when[k]].words[k]) == Words(Total(h[before].done))
  {
    HistoryOk(h, before);
    HistoryOk(h, after);
    HistoryGrows(h, before, after);
    Parity(h[before]);
    SameCount(Increments(h[before]), Increments(h[after]));
    forall k | 0 <= k < WORDS ensures h[when[k]].words == Words(Total(h[before].done)) {
      HistoryGrows(h, before, when[k]);
      HistoryGrows(h, when[k], after);
    }
  }
}
