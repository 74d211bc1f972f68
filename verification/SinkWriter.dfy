/** The writers of the sink counters, storing word by word into the shared page under the lock. */
module SinkWriter {
  import opened Wrappers
  import opened Modular
  import opened SinkStats

  // Word positions in the block; a 64-bit counter takes two, low word first.
  const PACKETS := 0
  const BYTES := 2
  const ERRORS := 4
  const EAGAINS := 6
  const CALLS := 8
  const CYCLES := 10
  const CYCLES_MAX := 12
  const LAST_ERRNO := 13
  const FIRST_CYCLE := 14
  const LAST_CYCLE := 15
  const LAST_LEN := 16

  class Page {
    var count: nat
    const words: array<nat>
    /** Every instant of the page so far, as a reader on the bus could see it. */
    ghost var history: seq<Moment>

    ghost predicate Valid()
      reads this, words
    {
      && words.Length == WORDS
      && History(history)
      && history[|history| - 1].count == count
      && history[|history| - 1].words == words[..]
    }

    ghost function Now(): Moment
      requires history != []
      reads this
    {
      history[|history| - 1]
    }

    constructor ()
      ensures Valid() && fresh(words) && Now() == Moment(0, Words(ZERO), [], None)
    {
      count := 0;
      words := new nat[WORDS](_ => 0);
      history := [Moment(0, Words(ZERO), [], None)];
      new;
      assert words[..] == Words(ZERO);
    }

    /** One more instant. */
    ghost method Tick(e: Event)
      requires History(history) && Enabled(Now(), e) && |Now().words| == WORDS
      modifies this`history
      ensures History(history) && history == old(history) + [Advance(old(Now()), e)]
    {
      var m := Advance(Now(), e);
      assert Follows(Now(), m);
      history := history + [m];
    }

    /** An update is under way that is to leave t in the block. */
    ghost predicate Toward(t: seq<nat>)
      reads this, words
    {
      Valid() && Now().current.Some? && Target(Now()) == t
    }

    /** What the update under way leaves alone, and that it is under way. */
    twostate predicate Within()
      reads this, words
    {
      Valid() && old(history) != [] && old(history) <= history
      && Now().done == old(Now()).done && Now().current == old(Now()).current
    }

    /** sink_stats_begin, with the lock taken; the update to come is named for the proof only. */
    method Begin(ghost u: Update)
      requires Valid() && Now().current == None
      modifies this
      ensures Valid() && old(history) <= history
      ensures Now().done == old(Now()).done && Now().current == Some(u)
    {
      count := Count(count, 1);
      Tick(Event.Begin(u));
    }

    /** One 32-bit store of the value the update gives the word. */
    method Put(ghost t: seq<nat>, k: nat, value: nat)
      requires Toward(t) && k < WORDS && value == t[k]
      modifies this`history, words
      ensures Within() && Toward(t) && words[..] == old(words[..])[k := value]
    {
      words[k] := value;
      Tick(Event.Store(k));
    }

    /** The two stores of a 64-bit counter. */
    method PutWide(ghost t: seq<nat>, k: nat, value: nat)
      requires Toward(t) && k + 1 < WORDS && IsWide(t, k, value)
      modifies this`history, words
      ensures Within() && Toward(t) && words[..] == old(words[..])[k := t[k]][k + 1 := t[k + 1]]
    {
      Put(t, k, value % WORD);
      Put(t, k + 1, value / WORD);
    }

    /** sink_stats_end. */
    method End()
      requires Valid() && Now().current.Some? && words[..] == Target(Now())
      modifies this
      ensures Valid() && old(history) <= history
      ensures Now().done == old(Now()).done + [old(Now()).current.value] && Now().current == None
    {
      count := Count(count, 1);
      Tick(Event.End);
    }

    /** A 64-bit counter, read as two words. */
    function Wide(k: nat): nat
      requires words.Length == WORDS && k + 1 < WORDS
      reads words
    {
      words[k] + words[k + 1] * WORD
    }

    /** The block holds the counters s. */
    ghost predicate Holds(s: Sink)
      reads words
    {
      words.Length == WORDS && words[..] == Words(s)
    }

    /** Whole updates only. */
    ghost predicate Settled()
      reads this, words
    {
      Valid() && Now().current == None
    }

    lemma SettledHolds()
      requires Settled()
      ensures Holds(Total(Now().done))
    {
      HistoryOk(history, |history| - 1);
    }

    /** The stores of an accounted packet. */
    method StorePacket(ghost t: seq<nat>, len: nat, now: nat)
      requires Toward(t) && PacketStores(words[..], t, len, now)
      modifies this`history, words
      ensures Within() && words[..] == t
    {
      var packets, bytes := Wide(PACKETS), Wide(BYTES);
      if packets == 0 {
        Put(t, FIRST_CYCLE, now);
      }
      PutWide(t, PACKETS, Count64(packets, 1));
      PutWide(t, BYTES, Count64(bytes, len));
      Put(t, LAST_LEN, len);
      Put(t, LAST_CYCLE, now);
    }

    method AccountPacket(len: nat, now: nat)
      requires Settled()
      modifies this, words
      ensures Settled() && old(history) <= history
      ensures Now().done == old(Now()).done + [Packet(len, now)]
    {
      SettledHolds();
      ghost var s := Total(Now().done);
      Begin(Packet(len, now));
      PacketWords(s, len, now);
      StorePacket(Words(Updated(s, Packet(len, now))), len, now);
      End();
    }

    method StoreError(ghost t: seq<nat>, err: nat)
      requires Toward(t) && ErrorStores(words[..], t, err)
      modifies this`history, words
      ensures Within() && words[..] == t
    {
      var errors, eagain := Wide(ERRORS), Wide(EAGAINS);
      PutWide(t, ERRORS, Count64(errors, 1));
      Put(t, LAST_ERRNO, err);
      if err == EAGAIN {
        PutWide(t, EAGAINS, Count64(eagain, 1));
      }
    }

    method AccountError(err: nat)
      requires Settled()
      modifies this, words
      ensures Settled() && old(history) <= history
      ensures Now().done == old(Now()).done + [Error(err)]
    {
      SettledHolds();
      ghost var s := Total(Now().done);
      Begin(Error(err));
      ErrorWords(s, err);
      StoreError(Words(Updated(s, Error(err))), err);
      End();
    }

    method StoreReceive(ghost t: seq<nat>, cost: nat)
      requires Toward(t) && ReceiveStores(words[..], t, cost)
      modifies this`history, words
      ensures Within() && words[..] == t
    {
      var calls, cycles := Wide(CALLS), Wide(CYCLES);
      PutWide(t, CALLS, Count64(calls, 1));
      PutWide(t, CYCLES, Count64(cycles, cost));
      if cost > words[CYCLES_MAX] {
        Put(t, CYCLES_MAX, cost);
      }
    }

    /** What the socket sink accounts for a receive call. */
    method AccountReceive(cost: nat)
      requires Settled()
      modifies this, words
      ensures Settled() && old(history) <= history
      ensures Now().done == old(Now()).done + [Receive(cost)]
    {
      SettledHolds();
      ghost var s := Total(Now().done);
      Begin(Receive(cost));
      ReceiveWords(s, cost);
      StoreReceive(Words(Updated(s, Receive(cost))), cost);
      End();
    }
  }

  // ---- The words that change ----

  predicate IsWide(w: seq<nat>, k: nat, value: nat)
    requires k + 1 < |w|
  {
    w[k] == value % WORD && w[k + 1] == value / WORD
  }

  function WideAt(w: seq<nat>, k: nat): nat
    requires k + 1 < |w|
  {
    w[k] + w[k + 1] * WORD
  }

  predicate Same(w: seq<nat>, t: seq<nat>, i: nat, j: nat)
    requires |w| == |t| == WORDS
  {
    forall k :: i <= k < j && k < WORDS ==> w[k] == t[k]
  }

  predicate PacketStores(w: seq<nat>, t: seq<nat>, len: nat, now: nat) {
    && |w| == |t| == WORDS
    && IsWide(t, PACKETS, Count64(WideAt(w, PACKETS), 1)) && IsWide(t, BYTES, Count64(WideAt(w, BYTES), len))
    && t[LAST_LEN] == len && t[LAST_CYCLE] == now
    && t[FIRST_CYCLE] == (if WideAt(w, PACKETS) == 0 then now else w[FIRST_CYCLE])
    && Same(w, t, ERRORS, FIRST_CYCLE)
  }

  predicate ErrorStores(w: seq<nat>, t: seq<nat>, err: nat) {
    && |w| == |t| == WORDS
    && IsWide(t, ERRORS, Count64(WideAt(w, ERRORS), 1)) && t[LAST_ERRNO] == err
    && (if err == EAGAIN then IsWide(t, EAGAINS, Count64(WideAt(w, EAGAINS), 1)) else Same(w, t, EAGAINS, CALLS))
    && Same(w, t, PACKETS, ERRORS) && Same(w, t, CALLS, LAST_ERRNO) && Same(w, t, FIRST_CYCLE, WORDS)
  }

  predicate ReceiveStores(w: seq<nat>, t: seq<nat>, cost: nat) {
    && |w| == |t| == WORDS
    && IsWide(t, CALLS, Count64(WideAt(w, CALLS), 1)) && IsWide(t, CYCLES, Count64(WideAt(w, CYCLES), cost))
    && t[CYCLES_MAX] == (if cost > w[CYCLES_MAX] then cost else w[CYCLES_MAX])
    && Same(w, t, PACKETS, CALLS) && Same(w, t, LAST_ERRNO, WORDS)
  }

  lemma PacketWords(s: Sink, len: nat, now: nat)
    ensures PacketStores(Words(s), Words(Updated(s, Packet(len, now))), len, now)
  {
  }

  lemma ErrorWords(s: Sink, err: nat)
    ensures ErrorStores(Words(s), Words(Updated(s, Error(err))), err)
  {
  }

  lemma ReceiveWords(s: Sink, cost: nat)
    ensures ReceiveStores(Words(s), Words(Updated(s, Receive(cost))), cost)
  {
  }
}
