/** The JTAG mailbox: a host posts requests in memory the board polls, across magic drop-outs and reboots. */
module Mailbox {
  import opened Wrappers
  import opened Modular
  import opened BigEndian
  import opened AddressCheck
  import opened Provision

  const MAILBOX_MAGIC: nat := 0x50525856

  /**
   The words of the mailbox, the addresses as the four bytes sys_put_be32 makes of them. It stays in
   memory when the board reboots.
   */
  datatype Box = Box(magic: nat, epoch: nat, ip: seq<bv8>, gateway: seq<bv8>, prefix: nat, ack: nat, status: Return) {
    predicate Words() {
      |ip| == 4 && |gateway| == 4
    }
  }

  /** The static variables of the poller. */
  datatype Poller = Poller(armed: bool, last: nat)

  datatype Request = Request(ip: seq<bv8>, gateway: seq<bv8>, prefix: nat)

  function Posted(x: Box): Request {
    Request(x.ip, x.gateway, x.prefix)
  }

  /** The prefix word is cut to a byte. */
  function PrefixByte(prefix: nat): bv8 {
    (prefix % 0x100) as bv8
  }

  datatype Polled = Polled(p: Prov, poller: Poller, box: Box, served: bool)

  /** The board carries out the request in the mailbox. */
  function Serve(p: Prov, x: Box, o: Calls): Polled
    requires x.Words()
  {
    var (q, ret) := Apply(p, x.ip, PrefixByte(x.prefix), x.gateway, o);
    Polled(q, Poller(true, x.epoch), x.(status := ret, ack := x.epoch), true)
  }

  /** poll_jtag_mailbox. */
  function Poll(p: Prov, b: Poller, x: Box, o: Calls): Polled
    requires x.Words()
  {
    if x.magic != MAILBOX_MAGIC then Polled(p, b.(armed := false), x, false)
    else if !b.armed then
      if x.ack == x.epoch then Polled(p, Poller(true, x.epoch), x, false) else Serve(p, x, o)
    else if x.epoch == b.last then Polled(p, b, x, false)
    else Serve(p, x, o)
  }

  predicate InStep(b: Poller, x: Box) {
    b.armed ==> b.last == x.ack
  }

  /** The request in the mailbox, if served now, leaves the board with the address it asks for. */
  predicate Feasible(p: Prov, x: Box, o: Calls) {
    Acceptable(x.ip, PrefixByte(x.prefix), x.gateway) && CallsSucceed(p, o)
  }

  lemma StatusTells(p: Prov, x: Box, o: Calls)
    requires x.Words()
    ensures var r := Serve(p, x, o);
            && (r.box.status == Done <==> Feasible(p, x, o))
            && if r.box.status == Done then Configured(r.p, x.ip, PrefixByte(x.prefix), x.gateway)
               else SameTriple(p, r.p)
  {
    DoneIff(p, x.ip, PrefixByte(x.prefix), x.gateway, o);
  }

  /**
   While only the board writes the acknowledgement, a poll serves exactly a request not yet
   acknowledged. It acknowledges it in any case, and reports success exactly if the change was made.
   */
  lemma ServesUnacknowledged(p: Prov, b: Poller, x: Box, o: Calls)
    requires x.Words() && InStep(b, x)
    ensures var r := Poll(p, b, x, o);
            && (r.served <==> x.magic == MAILBOX_MAGIC && x.epoch != x.ack)
            && InStep(r.poller, r.box) && (r.poller.armed <==> x.magic == MAILBOX_MAGIC)
            && (if r.served then r.box == x.(ack := x.epoch, status := r.box.status) else r.box == x && r.p == p)
            && (r.served ==> (r.box.status == Done <==> Feasible(p, x, o)))
            && (r.served && r.box.status == Done ==> Configured(r.p, x.ip, PrefixByte(x.prefix), x.gateway))
            && (r.served && r.box.status != Done ==> SameTriple(p, r.p))
  {
    StatusTells(p, x, o);
  }

  /** An acknowledgement is not a success: this request is refused by every board, and acknowledged. */
  lemma FailureIsAcknowledged(p: Prov, last: nat, o: Calls)
    ensures var x := Box(MAILBOX_MAGIC, 1, [0, 0, 0, 0], [0, 0, 0, 0], 24, 0, Done);
            var r := Poll(p, Poller(false, last), x, o);
            r.served && r.box.ack == x.epoch && r.box.status == Invalid && r.p == p
  {
    FromDigits([0, 0, 0, 0], 0, 0, 0, 0);
  }

  /** A poll acknowledges a request that failed exactly if it serves one that is not feasible. */
  lemma FailureAcknowledgedIff(p: Prov, b: Poller, x: Box, o: Calls)
    requires x.Words() && InStep(b, x)
    ensures var r := Poll(p, b, x, o);
            var failed := r.box.ack != x.ack && r.box.status != Done;
            failed <==> x.magic == MAILBOX_MAGIC && x.epoch != x.ack && !Feasible(p, x, o)
  {
    ServesUnacknowledged(p, b, x, o);
  }

  /**
   The board accepts a prefix word that the host's check refuses exactly if the word does not fit a
   byte and its low byte is acceptable.
   */
  lemma PrefixWordIff(ip: seq<bv8>, word: nat, gateway: seq<bv8>)
    requires |ip| == 4 && |gateway| == 4
    ensures var accepted := Acceptable(ip, PrefixByte(word), gateway);
            accepted && !Valid(FromBytes(ip), word, FromBytes(gateway)) <==> word >= 0x100 && accepted
  {
    if word < 0x100 {
      ByteCast(word);
      ModUnique(word, 0, word, 0x100);
      SameCheck(FromBytes(ip), word, FromBytes(gateway));
    }
  }

  /** Such a word: 272 is taken for the prefix 16. */
  lemma PrefixWordExample(mac: seq<bv8>)
    requires |mac| == 6
    ensures Acceptable(Bootstrap(mac), PrefixByte(272), [0, 0, 0, 0])
    ensures !Valid(FromBytes(Bootstrap(mac)), 272, FromBytes([0, 0, 0, 0]))
  {
    assert PrefixByte(272) == 16;
    BootstrapUsable(mac);
  }

  predicate Kept(p: Prov, q: Prov) {
    Inv(q) && q.mac == p.mac && q.token == p.token && q.xid == p.xid
  }

  lemma ApplyKept(p: Prov, ip: seq<bv8>, prefix: bv8, gateway: seq<bv8>, o: Calls)
    requires Inv(p)
    ensures Kept(p, Apply(p, ip, prefix, gateway, o).0)
  {
    ApplyKeeps(p, ip, prefix, gateway, o);
  }

  lemma PollKeeps(p: Prov, b: Poller, x: Box, o: Calls)
    requires x.Words() && Inv(p)
    ensures Kept(p, Poll(p, b, x, o).p)
  {
    var k := PrefixByte(x.prefix);
    ApplyKept(p, x.ip, k, x.gateway, o);
    var q := Apply(p, x.ip, k, x.gateway, o).0;
    assert Poll(p, b, x, o).p == p || Poll(p, b, x, o).p == q;
  }

  // ---- Host, board and reboots ----

  datatype Action =
    | PollOnce(o: Calls)
    | Magic(magic: nat)
    | Stage(request: Request)
    | Bump(epoch: nat)
    | Reboot(p: Prov)

  /** A request that was served, and what was written as its status. */
  datatype Outcome = Outcome(request: Request, status: Return)

  function Requests(served: seq<Outcome>): seq<Request> {
    seq(|served|, i requires 0 <= i < |served| => served[i].request)
  }

  /** A run so far: the requests posted and those served. */
  datatype View = View(p: Prov, poller: Poller, box: Box, posted: seq<Request>, served: seq<Outcome>)

  predicate Pending(x: Box) {
    x.epoch != x.ack
  }

  /** The host stages and bumps only when its last request is acknowledged; magic and power come and go. */
  predicate Allowed(v: View, a: Action) {
    match a
    case PollOnce(_) => true
    case Magic(_) => true
    case Stage(r) => !Pending(v.box) && |r.ip| == 4 && |r.gateway| == 4
    case Bump(e) => !Pending(v.box) && e != v.box.epoch
    case Reboot(_) => true
  }

  function Step(v: View, a: Action): View
    requires v.box.Words()
  {
    match a
    case PollOnce(o) =>
      var r := Poll(v.p, v.poller, v.box, o);
      View(r.p, r.poller, r.box, v.posted,
           if r.served then v.served + [Outcome(Posted(v.box), r.box.status)] else v.served)
    case Magic(m) => v.(box := v.box.(magic := m))
    case Stage(q) => v.(box := v.box.(ip := q.ip, gateway := q.gateway, prefix := q.prefix))
    case Bump(e) => v.(box := v.box.(epoch := e), posted := v.posted + [Posted(v.box)])
    case Reboot(p) => v.(p := p, poller := Poller(false, 0))
  }

  function Outstanding(x: Box): seq<Request> {
    if Pending(x) then [Posted(x)] else []
  }

  /** Each request posted was served, once and in order, but for the outstanding one; the status word is the latest. */
  predicate Exactly(v: View) {
    && v.box.Words() && InStep(v.poller, v.box)
    && v.posted == Requests(v.served) + Outstanding(v.box)
    && (v.served != [] ==> v.box.status == v.served[|v.served| - 1].status)
  }

  lemma StepExactly(v: View, a: Action)
    requires Exactly(v) && Allowed(v, a)
    ensures Exactly(Step(v, a))
  {
    if a.PollOnce? {
      ServesUnacknowledged(v.p, v.poller, v.box, a.o);
      var one := Outcome(Posted(v.box), Step(v, a).box.status);
      assert Requests(v.served + [one]) == Requests(v.served) + [Posted(v.box)];
    }
  }

  /** Power-up over whatever the mailbox holds; a request in it that is not acknowledged counts as posted. */
  function PowerUp(p: Prov, x: Box): View {
    View(p, Poller(false, 0), x, Outstanding(x), [])
  }

  function After(v: View, run: seq<Action>): Option<View>
    requires Exactly(v)
    ensures After(v, run).Some? ==> Exactly(After(v, run).value)
  {
    if run == [] then Some(v)
    else
      match After(v, run[..|run| - 1])
      case None => None
      case Some(w) =>
        if Allowed(w, run[|run| - 1]) then
          StepExactly(w, run[|run| - 1]);
          Some(Step(w, run[|run| - 1]))
        else None
  }

  /**
   In every run the requests served are the requests posted, in order and each once, but for the one
   the host is still waiting for; one poll with the magic in place serves that one; and what the
   status word then says is whether the board could carry it out.
   */
  lemma ExactlyOnce(p: Prov, x: Box, run: seq<Action>, o: Calls)
    requires x.Words() && After(PowerUp(p, x), run).Some?
    ensures var v := After(PowerUp(p, x), run).value;
            && v.box.Words()
            && v.posted == Requests(v.served) + Outstanding(v.box)
            && (v.served != [] ==> v.box.status == v.served[|v.served| - 1].status)
            && (v.box.magic == MAILBOX_MAGIC ==> Requests(Step(v, PollOnce(o)).served) == v.posted)
            && (v.box.magic == MAILBOX_MAGIC && Pending(v.box) ==>
                  (Step(v, PollOnce(o)).box.status == Done <==> Feasible(v.p, v.box, o)))
  {
    var v := After(PowerUp(p, x), run).value;
    StepExactly(v, PollOnce(o));
    ServesUnacknowledged(v.p, v.poller, v.box, o);
  }
}
