/** The host's reader of the statistics page: field layout, burst reads and the retry on a moved sequence word. */
module StatsReader {
  import opened Wrappers
  import opened Modular
  import opened SinkStats

  // ---- Layout ----

  datatype Kind = U32 | U64

  /** A named word or double word of the page. */
  datatype Field<N> = Field(name: N, kind: Kind)

  function Size(k: Kind): nat {
    if k == U64 then 8 else 4
  }

  /** Natural alignment: a 64-bit field starts on a multiple of eight. */
  function Aligned(offset: nat, k: Kind): nat {
    if k == U64 then (offset + 7) / 8 * 8 else offset
  }

  /** The end of the first n fields. */
  function EndOf<N>(fields: seq<Field<N>>, n: nat): nat
    requires n <= |fields|
  {
    if n == 0 then 0 else Aligned(EndOf(fields, n - 1), fields[n - 1].kind) + Size(fields[n - 1].kind)
  }

  function Offset<N>(fields: seq<Field<N>>, i: nat): nat
    requires i < |fields|
  {
    Aligned(EndOf(fields, i), fields[i].kind)
  }

  predicate DistinctNames<N(==)>(fields: seq<Field<N>>) {
    forall i, j :: 0 <= i < j < |fields| ==> fields[i].name != fields[j].name
  }

  /** One field: where it goes, and where the next may start. */
  method Place(offset: nat, kind: Kind) returns (at: nat, next: nat)
    ensures at == Aligned(offset, kind) && next == at + Size(kind)
  {
    at := offset;
    if kind == U64 {
      at := (offset + 7) / 8 * 8;
      next := at + 8;
    } else {
      next := at + 4;
    }
  }

  method FieldOffsets<N(==)>(fields: seq<Field<N>>) returns (offsets: map<N, nat>, total: nat)
    requires DistinctNames(fields)
    ensures Recorded(fields, offsets, |fields|)
    ensures total == EndOf(fields, |fields|)
  {
    offsets, total := map[], 0;
    for n := 0 to |fields|
      invariant total == EndOf(fields, n)
      invariant Recorded(fields, offsets, n)
    {
      ghost var was := offsets;
      var at, next := Place(total, fields[n].kind);
      offsets := offsets[fields[n].name := at];
      total := next;
      RecordOne(fields, was, n);
    }
  }

  predicate Recorded<N(==)>(fields: seq<Field<N>>, offsets: map<N, nat>, n: nat)
    requires n <= |fields|
  {
    forall i :: 0 <= i < n ==> fields[i].name in offsets && offsets[fields[i].name] == Offset(fields, i)
  }

  lemma RecordOne<N>(fields: seq<Field<N>>, offsets: map<N, nat>, n: nat)
    requires n < |fields| && DistinctNames(fields) && Recorded(fields, offsets, n)
    ensures Recorded(fields, offsets[fields[n].name := Offset(fields, n)], n + 1)
  {
    forall i | 0 <= i < n ensures fields[i].name != fields[n].name {
    }
  }

  lemma Multiples(e: nat)
    requires e % 4 == 0
    ensures Aligned(e, U64) % 8 == 0 && e <= Aligned(e, U64) <= e + 4
    ensures Aligned(e, U64) % 4 == 0 && (Aligned(e, U64) + 8) % 4 == 0 && (e + 4) % 4 == 0
  {
  }

  /** Every field lies on a word, a 64-bit one on a double word, behind all earlier fields and inside the total. */
  lemma {:induction false} FieldsInOrder<N>(fields: seq<Field<N>>, i: nat, j: nat)
    requires i < j <= |fields|
    ensures EndOf(fields, j) % 4 == 0 && Offset(fields, i) % Size(fields[i].kind) == 0
    ensures Offset(fields, i) + Size(fields[i].kind) <= EndOf(fields, j)
    ensures j < |fields| ==> Offset(fields, i) + Size(fields[i].kind) <= Offset(fields, j)
    decreases j
  {
    EndAligned(fields, i);
    EndAligned(fields, j);
    EndAligned(fields, j - 1);
    Multiples(EndOf(fields, i));
    Multiples(EndOf(fields, j));
    Multiples(EndOf(fields, j - 1));
    if i < j - 1 {
      FieldsInOrder(fields, i, j - 1);
    }
  }

  lemma {:induction false} EndAligned<N>(fields: seq<Field<N>>, n: nat)
    requires n <= |fields|
    ensures EndOf(fields, n) % 4 == 0
  {
    if n == 0 {
    } else {
      EndAligned(fields, n - 1);
      Multiples(EndOf(fields, n - 1));
    }
  }

  /** Fields are packed: each starts at the first multiple of its size behind the one before. */
  lemma FieldsPacked<N>(fields: seq<Field<N>>, i: nat)
    requires i < |fields|
    ensures EndOf(fields, 0) == 0 && EndOf(fields, i + 1) == Offset(fields, i) + Size(fields[i].kind)
    ensures EndOf(fields, i) <= Offset(fields, i) < EndOf(fields, i) + Size(fields[i].kind)
    ensures Offset(fields, i) % Size(fields[i].kind) == 0
    ensures Size(U32) == 4 && Size(U64) == 8
  {
    EndAligned(fields, i);
    Multiples(EndOf(fields, i));
  }

  // ---- Reading ----

  const BURST := 15
  const RETRIES := 8

  /** Words in the page, and where the sequence word and the block behind it are. */
  datatype Layout = Layout(words: nat, seqAt: nat, blockAt: nat) {
    predicate Legal() {
      seqAt < blockAt && blockAt + WORDS <= words
    }
  }

  /** sink_seq at i, then six 64-bit counters and five 32-bit words up to sink_last_len. */
  predicate SinkFields<N>(fields: seq<Field<N>>, i: nat) {
    && i + 12 <= |fields|
    && fields[i].kind == U32
    && Kinds(fields, i + 1, i + 7, U64)
    && Kinds(fields, i + 7, i + 12, U32)
  }

  predicate Kinds<N>(fields: seq<Field<N>>, i: nat, j: nat, kind: Kind)
    requires i <= j <= |fields|
  {
    forall k :: i <= k < j ==> fields[k].kind == kind
  }

  lemma Eights(e: nat)
    requires e % 8 == 0
    ensures Aligned(e, U64) == e && (e + 8) % 8 == 0 && e % 4 == 0
  {
  }

  /** In any field list the sink fields make one gapless block of 17 words behind the sequence word. */
  lemma SinkBlock<N>(fields: seq<Field<N>>, i: nat)
    requires SinkFields(fields, i)
    ensures var b := Offset(fields, i + 1);
            && Offset(fields, i) % 4 == 0 && b % 4 == 0
            && (forall k :: i + 1 <= k < i + 7 ==> Offset(fields, k) == b + 8 * (k - i - 1))
            && (forall k :: i + 7 <= k < i + 12 ==> Offset(fields, k) == b + 48 + 4 * (k - i - 7))
            && Layout((EndOf(fields, |fields|) + 3) / 4, Offset(fields, i) / 4, b / 4).Legal()
  {
    EndAligned(fields, i);
    EndAligned(fields, i + 1);
    EndAligned(fields, |fields|);
    Multiples(EndOf(fields, i + 1));
    WideRun(fields, i + 1, i + 7);
    NarrowRun(fields, i + 7, i + 12);
    FieldsInOrder(fields, i, i + 1);
    FieldsInOrder(fields, i + 11, |fields|);
  }

  lemma {:induction false} WideRun<N>(fields: seq<Field<N>>, i: nat, j: nat)
    requires i < j <= |fields| && Kinds(fields, i, j, U64)
    ensures forall k :: i <= k < j ==> Offset(fields, k) == Offset(fields, i) + 8 * (k - i)
    ensures EndOf(fields, j) == Offset(fields, i) + 8 * (j - i)
    ensures EndOf(fields, j) % 8 == 0
    decreases j
  {
    EndAligned(fields, i);
    Multiples(EndOf(fields, i));
    if i + 1 < j {
      WideRun(fields, i, j - 1);
      Eights(EndOf(fields, j - 1));
    } else {
      Eights(Offset(fields, i));
    }
  }

  lemma {:induction false} NarrowRun<N>(fields: seq<Field<N>>, i: nat, j: nat)
    requires i <= j <= |fields| && Kinds(fields, i, j, U32)
    ensures forall k :: i <= k < j ==> Offset(fields, k) == EndOf(fields, i) + 4 * (k - i)
    ensures EndOf(fields, j) == EndOf(fields, i) + 4 * (j - i)
    decreases j
  {
    if i == j {
    } else {
      NarrowRun(fields, i, j - 1);
    }
  }

  /** A page whose sink words follow the history h and whose other words hold anything. */
  datatype Bus = Bus(h: seq<Moment>, others: (nat, nat) -> nat, layout: Layout, clock: (nat, nat) -> nat)

  /** The word at index i at instant t. */
  function Word(bus: Bus, i: nat, t: nat): nat
    requires t < |bus.h| && |bus.h[t].words| == WORDS
  {
    if i == bus.layout.seqAt then bus.h[t].count
    else if bus.layout.blockAt <= i < bus.layout.blockAt + WORDS then bus.h[t].words[i - bus.layout.blockAt]
    else bus.others(i, t)
  }

  /** Beats happen in order: clock(a, i) is the instant of beat i of attempt a, the re-read last. */
  ghost predicate Ordered(bus: Bus) {
    && bus.layout.Legal()
    && (forall a: nat, i: nat :: a < RETRIES && i <= bus.layout.words ==> bus.clock(a, i) < |bus.h|)
    && (forall a: nat, i: nat, j: nat ::
          a < RETRIES && i <= j <= bus.layout.words ==> bus.clock(a, i) <= bus.clock(a, j))
    && (forall t :: 0 <= t < |bus.h| ==> |bus.h[t].words| == WORDS)
  }

  /** The words one attempt reads. */
  ghost function Beats(bus: Bus, a: nat, n: nat): (w: seq<nat>)
    requires Ordered(bus) && a < RETRIES && n <= bus.layout.words
    ensures |w| == n
  {
    seq(n, i requires 0 <= i < n => Word(bus, i, bus.clock(a, i)))
  }

  ghost predicate Accepts(bus: Bus, a: nat)
    requires Ordered(bus) && a < RETRIES
  {
    var before := bus.h[bus.clock(a, bus.layout.seqAt)].count;
    before % 2 == 0 && before == bus.h[bus.clock(a, bus.layout.words)].count
  }

  method BurstRead(bus: Bus, a: nat, from: nat, count: nat, chunks: seq<nat>) returns (w: seq<nat>)
    requires Ordered(bus) && a < RETRIES && count <= BURST && from + count <= bus.layout.words
    requires chunks == Beats(bus, a, from)
    ensures w == Beats(bus, a, from + count)
  {
    w := chunks;
    for i := 0 to count
      invariant w == Beats(bus, a, from + i)
    {
      w := w + [Word(bus, from + i, bus.clock(a, from + i))];
    }
  }

  /** Attempt a is the first that found the sequence word even and unmoved. */
  ghost predicate FirstAccepted(bus: Bus, a: nat)
    requires Ordered(bus)
  {
    a < RETRIES && Accepts(bus, a) && forall k: nat :: k < a ==> !Accepts(bus, k)
  }

  /** Fewer than 2^32 increments of the sequence word during one attempt. */
  ghost predicate Slow(bus: Bus, a: nat)
    requires Ordered(bus) && a < RETRIES
  {
    Increments(bus.h[bus.clock(a, bus.layout.words)]) < Increments(bus.h[bus.clock(a, bus.layout.seqAt)]) + WORD
  }

  /** The instants at which an attempt reads the sink words. */
  ghost function SinkBeats(bus: Bus, a: nat): (when: seq<nat>)
    requires Ordered(bus) && a < RETRIES
    ensures |when| == WORDS
    ensures forall k :: 0 <= k < WORDS ==> when[k] < |bus.h| && |bus.h[when[k]].words| == WORDS
  {
    seq(WORDS, k requires 0 <= k < WORDS => bus.clock(a, bus.layout.blockAt + k))
  }

  /** The sink words among those of an attempt. */
  lemma SinkWords(bus: Bus, a: nat)
    requires Ordered(bus) && a < RETRIES
    ensures var b, when := bus.layout.blockAt, SinkBeats(bus, a);
            var seen := seq(WORDS, k requires 0 <= k < WORDS => bus.h[when[k]].words[k]);
            Beats(bus, a, bus.layout.words)[b..b + WORDS] == seen
  {
  }

  /** An accepted attempt has the sink block as it stood after a whole number of updates, no counter torn. */
  lemma AcceptedIsConsistent(bus: Bus, a: nat)
    requires Ordered(bus) && History(bus.h) && a < RETRIES && Accepts(bus, a) && Slow(bus, a)
    ensures var b := bus.layout.blockAt;
            Beats(bus, a, bus.layout.words)[b..b + WORDS] == Words(Total(bus.h[bus.clock(a, bus.layout.seqAt)].done))
  {
    SinkWords(bus, a);
    SnapshotIsConsistent(bus.h, bus.clock(a, bus.layout.seqAt), SinkBeats(bus, a), bus.clock(a, bus.layout.words));
  }

  /** The words read hold the sink block as it stood after a whole number of updates. */
  ghost predicate Consistent(bus: Bus, data: seq<nat>) {
    && bus.layout.blockAt + WORDS <= |data|
    && exists t :: 0 <= t < |bus.h| && SinkAt(bus, data) == Words(Total(bus.h[t].done))
  }

  function SinkAt(bus: Bus, data: seq<nat>): seq<nat>
    requires bus.layout.blockAt + WORDS <= |data|
  {
    data[bus.layout.blockAt..bus.layout.blockAt + WORDS]
  }

  ghost predicate AllSlow(bus: Bus)
    requires Ordered(bus)
  {
    forall a: nat :: a < RETRIES ==> Slow(bus, a)
  }

  /** The 64-bit counters of a consistent block are whole: none has one word of an older value. The rest are words. */
  lemma CountersWhole(s: Sink)
    ensures var w := Words(s);
            && w[0] + w[1] * WORD == s.packets && w[2] + w[3] * WORD == s.bytes && w[4] + w[5] * WORD == s.errors
            && w[6] + w[7] * WORD == s.eagain && w[8] + w[9] * WORD == s.calls && w[10] + w[11] * WORD == s.cycles
            && w[12..] == [s.cyclesMax, s.lastErrno, s.firstCycle, s.lastCycle, s.lastLen]
  {
  }

  /** The words of the first of eight attempts that found the sequence word even and unmoved, if there is one. */
  method ReadStats(bus: Bus) returns (data: Option<seq<nat>>)
    requires Ordered(bus)
    ensures data.Some? ==> exists a :: FirstAccepted(bus, a) && data.value == Beats(bus, a, bus.layout.words)
    ensures data.None? ==> forall a: nat :: a < RETRIES ==> !Accepts(bus, a)
    ensures data.Some? && History(bus.h) && AllSlow(bus) ==> Consistent(bus, data.value)
  {
    var a := 0;
    while a < RETRIES
      invariant a <= RETRIES
      invariant forall k: nat :: k < a ==> !Accepts(bus, k)
    {
      var chunks := [];
      var offset := 0;
      while offset < bus.layout.words
        invariant chunks == Beats(bus, a, if offset <= bus.layout.words then offset else bus.layout.words)
      {
        var count := if BURST <= bus.layout.words - offset then BURST else bus.layout.words - offset;
        chunks := BurstRead(bus, a, offset, count, chunks);
        offset := offset + BURST;
      }
      var before := chunks[bus.layout.seqAt];
      var after := Word(bus, bus.layout.seqAt, bus.clock(a, bus.layout.words));
      if before % 2 == 0 && before == after {
        assert FirstAccepted(bus, a);
        if History(bus.h) && AllSlow(bus) {
          AcceptedIsConsistent(bus, a);
        }
        return Some(chunks);
      }
      a := a + 1;
    }
    return None;
  }
}
