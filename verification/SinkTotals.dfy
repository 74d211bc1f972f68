/** What the sink counters mean: sums, counts, the greatest and the latest over the updates made. */
module SinkTotals {
  import opened Modular
  import opened SinkStats

  /** The updates of one kind, in order. */
  function Of(done: seq<Update>, kind: Update -> bool): seq<Update> {
    if done == [] then []
    else
      var rest, u := Of(done[..|done| - 1], kind), done[|done| - 1];
      if kind(u) then rest + [u] else rest
  }

  function SumOf(done: seq<Update>, amount: Update -> nat): nat {
    if done == [] then 0 else SumOf(done[..|done| - 1], amount) + amount(done[|done| - 1])
  }

  predicate IsPacket(u: Update) {
    u.Packet?
  }

  predicate IsError(u: Update) {
    u.Error?
  }

  predicate IsReceive(u: Update) {
    u.Receive?
  }

  function Len(u: Update): nat {
    if u.Packet? then u.len else 0
  }

  /** An error that only says that nothing was there. */
  function Again(u: Update): nat {
    if u == Error(11) then 1 else 0
  }

  function Cost(u: Update): nat {
    if u.Receive? then u.cost else 0
  }

  predicate AllPackets(p: seq<Update>) {
    forall k :: 0 <= k < |p| ==> p[k].Packet?
  }

  /** The cycle stamps and the length of the latest packet, and the stamp of the one that met a zero count. */
  predicate Stamps(s: Sink, p: seq<Update>)
    requires AllPackets(p)
  {
    if p == [] then s.firstCycle == s.lastCycle == s.lastLen == 0
    else
      var n := |p| - 1;
      && s.lastCycle == p[n].now && s.lastLen == p[n].len
      && 0 <= n / LONG * LONG <= n && s.firstCycle == p[n / LONG * LONG].now
  }

  predicate Greatest(m: nat, r: seq<Update>) {
    && (forall k :: 0 <= k < |r| ==> Cost(r[k]) <= m)
    && (m == 0 || exists k :: 0 <= k < |r| && Cost(r[k]) == m)
  }

  predicate LatestError(err: nat, e: seq<Update>) {
    if e == [] then err == 0 else e[|e| - 1] == Error(err)
  }

  predicate PacketsTold(s: Sink, done: seq<Update>) {
    var p := Of(done, IsPacket);
    s.packets == |p| % LONG && s.bytes == SumOf(done, Len) % LONG && AllPackets(p) && Stamps(s, p)
  }

  predicate ErrorsTold(s: Sink, done: seq<Update>) {
    var e := Of(done, IsError);
    s.errors == |e| % LONG && s.eagain == SumOf(done, Again) % LONG && LatestError(s.lastErrno, e)
  }

  predicate CallsTold(s: Sink, done: seq<Update>) {
    var r := Of(done, IsReceive);
    s.calls == |r| % LONG && s.cycles == SumOf(done, Cost) % LONG && Greatest(s.cyclesMax, r)
  }

  /** Six 64-bit sums and counts, and the words about one update. */
  predicate Means(s: Sink, done: seq<Update>) {
    PacketsTold(s, done) && ErrorsTold(s, done) && CallsTold(s, done)
  }

  lemma OfMore(done: seq<Update>, u: Update, kind: Update -> bool)
    ensures Of(done + [u], kind) == if kind(u) then Of(done, kind) + [u] else Of(done, kind)
  {
  }

  lemma SumMore(done: seq<Update>, u: Update, amount: Update -> nat)
    ensures SumOf(done + [u], amount) == SumOf(done, amount) + amount(u)
  {
  }

  lemma Count64Mod(n: nat, k: nat)
    ensures Count64(n % LONG, k) == (n + k) % LONG
  {
    ModAdd(n, k, LONG);
  }

  /** The count that a packet meets is zero exactly for the first of every 2^64. */
  lemma FirstOfMany(n: nat)
    ensures n % LONG == 0 ==> n / LONG * LONG == n
    ensures n % LONG != 0 ==> n > 0 && n / LONG == (n - 1) / LONG
  {
    if n % LONG != 0 {
      ModUnique(n - 1, n / LONG, n % LONG - 1, LONG);
    }
  }

  lemma StampsMore(s: Sink, p: seq<Update>, len: nat, now: nat)
    requires AllPackets(p) && Stamps(s, p) && s.packets == |p| % LONG
    ensures AllPackets(p + [Packet(len, now)]) && Stamps(Updated(s, Packet(len, now)), p + [Packet(len, now)])
  {
    FirstOfMany(|p|);
  }

  lemma GreatestMore(m: nat, r: seq<Update>, cost: nat)
    requires Greatest(m, r)
    ensures Greatest(if cost > m then cost else m, r + [Receive(cost)])
  {
    var r' := r + [Receive(cost)];
    assert Cost(r'[|r|]) == cost;
    if m != 0 {
      var k :| 0 <= k < |r| && Cost(r[k]) == m;
      assert Cost(r'[k]) == m;
    }
  }

  lemma SumsMore(done: seq<Update>, u: Update)
    ensures SumOf(done + [u], Len) == SumOf(done, Len) + Len(u)
    ensures SumOf(done + [u], Again) == SumOf(done, Again) + Again(u)
    ensures SumOf(done + [u], Cost) == SumOf(done, Cost) + Cost(u)
  {
    SumMore(done, u, Len);
    SumMore(done, u, Again);
    SumMore(done, u, Cost);
  }

  lemma KindsMore(done: seq<Update>, u: Update)
    ensures Of(done + [u], IsPacket) == if u.Packet? then Of(done, IsPacket) + [u] else Of(done, IsPacket)
    ensures Of(done + [u], IsError) == if u.Error? then Of(done, IsError) + [u] else Of(done, IsError)
    ensures Of(done + [u], IsReceive) == if u.Receive? then Of(done, IsReceive) + [u] else Of(done, IsReceive)
  {
    OfMore(done, u, IsPacket);
    OfMore(done, u, IsError);
    OfMore(done, u, IsReceive);
  }

  lemma PacketsMore(done: seq<Update>, u: Update, s: Sink)
    requires PacketsTold(s, done)
    ensures PacketsTold(Updated(s, u), done + [u])
  {
    SumsMore(done, u);
    KindsMore(done, u);
    if u.Packet? {
      Count64Mod(|Of(done, IsPacket)|, 1);
      Count64Mod(SumOf(done, Len), u.len);
      StampsMore(s, Of(done, IsPacket), u.len, u.now);
    }
  }

  lemma ErrorsMore(done: seq<Update>, u: Update, s: Sink)
    requires ErrorsTold(s, done)
    ensures ErrorsTold(Updated(s, u), done + [u])
  {
    SumsMore(done, u);
    KindsMore(done, u);
    if u.Error? {
      Count64Mod(|Of(done, IsError)|, 1);
      Count64Mod(SumOf(done, Again), 1);
    }
  }

  lemma CallsMore(done: seq<Update>, u: Update, s: Sink)
    requires CallsTold(s, done)
    ensures CallsTold(Updated(s, u), done + [u])
  {
    SumsMore(done, u);
    KindsMore(done, u);
    if u.Receive? {
      Count64Mod(|Of(done, IsReceive)|, 1);
      Count64Mod(SumOf(done, Cost), u.cost);
      GreatestMore(s.cyclesMax, Of(done, IsReceive), u.cost);
    }
  }

  /** The counters after any updates are their sums, counts, maximum and latest values. */
  lemma {:induction false} TotalTells(done: seq<Update>)
    ensures Means(Total(done), done)
  {
    if done == [] {
    } else {
      var n := |done| - 1;
      TotalTells(done[..n]);
      PacketsMore(done[..n], done[n], Total(done[..n]));
      ErrorsMore(done[..n], done[n], Total(done[..n]));
      CallsMore(done[..n], done[n], Total(done[..n]));
      assert done[..n] + [done[n]] == done;
    }
  }
}
