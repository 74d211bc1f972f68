/** Whole runs of the provisioning thread, polling the mailbox and answering packets. */
module ProvisionRuns {
  import opened Wrappers
  import opened ProvisionCodec
  import opened Provision
  import opened Mailbox

  /** One turn of the thread loop: what the mailbox and the queue hold, and how the stack calls come out. */
  datatype Turn = Turn(box: Box, mailCalls: Calls, packet: Option<seq<bv8>>, cycles: bv32, calls: Calls)

  /** The message that was decoded, if any, and the one that was sent, if any. */
  datatype Item = Item(request: Option<Message>, response: Option<Message>) {
    predicate Discovers() {
      request.Some? && request.value.op == DISCOVER
    }

    predicate Acks() {
      response.Some? && response.value.op == ACK
    }
  }

  datatype Node = Node(p: Prov, poller: Poller, trace: seq<Item>)

  function Received(t: Turn): Option<Message> {
    match t.packet
    case None => None
    case Some(packet) => Decode(packet)
  }

  function Respond(p: Prov, request: Option<Message>, t: Turn): (Prov, Option<Message>)
    requires |p.mac| == 6
  {
    match request
    case None => (p, None)
    case Some(r) => Answer(p, r, t.cycles, t.calls)
  }

  function Step(v: Node, t: Turn): Node
    requires |v.p.mac| == 6 && t.box.Words() && Inv(v.p)
  {
    PollKeeps(v.p, v.poller, t.box, t.mailCalls);
    var polled := Poll(v.p, v.poller, t.box, t.mailCalls);
    var (q, response) := Respond(polled.p, Received(t), t);
    Node(q, polled.poller, v.trace + [Item(Received(t), response)])
  }

  // ---- Sessions ----

  /** The turn of the latest DISCOVER, or -1. */
  function Latest(trace: seq<Item>): (d: int)
    ensures -1 <= d < |trace|
    ensures d >= 0 ==> trace[d].Discovers()
    ensures forall k :: d < k < |trace| ==> !trace[k].Discovers()
  {
    if trace == [] then -1
    else if trace[|trace| - 1].Discovers() then |trace| - 1
    else Latest(trace[..|trace| - 1])
  }

  /** ACKs sent since the latest DISCOVER. */
  function AcksSince(trace: seq<Item>): nat {
    if trace == [] || trace[|trace| - 1].Discovers() then 0
    else AcksSince(trace[..|trace| - 1]) + if trace[|trace| - 1].Acks() then 1 else 0
  }

  /** The session variables are those the latest DISCOVER set, the token used up by an ACK. */
  predicate Session(p: Prov, trace: seq<Item>) {
    var d := Latest(trace);
    if d < 0 then p.token == 0 && AcksSince(trace) == 0
    else
      && p.xid == trace[d].request.value.xid
      && trace[d].response.Some? && trace[d].response.value.op == OFFER
      && trace[d].response.value.xid == p.xid && trace[d].response.value.token != 0
      && AcksSince(trace) <= 1
      && p.token == if AcksSince(trace) == 0 then trace[d].response.value.token else 0
  }

  /** An ACK is sent exactly for the right CONFIG, with a usable address, when the stack lets it be applied. */
  lemma AckIff(p: Prov, r: Message, cycles: bv32, o: Calls)
    requires |p.mac| == 6
    ensures var m := Answer(p, r, cycles, o).1;
            var right := r.op == CONFIG && r.mac == p.mac && Current(p, r);
            m.Some? && m.value.op == ACK <==>
              right && Acceptable(r.ip, r.prefix, r.gateway) && CallsSucceed(p, o)
  {
    DoneIff(p, r.ip, r.prefix, r.gateway, o);
  }

  lemma TraceStep(trace: seq<Item>, x: Item)
    ensures Latest(trace + [x]) == if x.Discovers() then |trace| else Latest(trace)
    ensures AcksSince(trace + [x])
         == if x.Discovers() then 0 else AcksSince(trace) + if x.Acks() then 1 else 0
  {
  }

  predicate Good(v: Node) {
    Inv(v.p) && Session(v.p, v.trace)
  }

  lemma RespondGood(p: Prov, trace: seq<Item>, request: Option<Message>, t: Turn)
    requires Inv(p) && Session(p, trace)
    ensures var (q, m) := Respond(p, request, t);
            Inv(q) && q.mac == p.mac && Session(q, trace + [Item(request, m)])
  {
    var (q, m) := Respond(p, request, t);
    TraceStep(trace, Item(request, m));
    if request.Some? {
      AnswerKeeps(p, request.value, t.cycles, t.calls);
      AnswerTable(p, request.value, t.cycles, t.calls);
    }
  }

  lemma StepGood(v: Node, t: Turn)
    requires Good(v) && t.box.Words()
    ensures Good(Step(v, t)) && Step(v, t).p.mac == v.p.mac
  {
    PollKeeps(v.p, v.poller, t.box, t.mailCalls);
    RespondGood(Poll(v.p, v.poller, t.box, t.mailCalls).p, v.trace, Received(t), t);
  }

  predicate Turns(run: seq<Turn>) {
    forall k :: 0 <= k < |run| ==> run[k].box.Words()
  }

  function Run(v: Node, run: seq<Turn>): (w: Node)
    requires Good(v) && Turns(run)
    ensures Good(w)
  {
    if run == [] then v
    else
      var n := |run| - 1;
      var u := Run(v, run[..n]);
      StepGood(u, run[n]);
      Step(u, run[n])
  }

  /** The thread as it starts, for any network state and any failures of the bootstrap. */
  function First(mac: seq<bv8>, stack: Stack, added: bool, masked: bool): (v: Node)
    requires |mac| == 6
    ensures Good(v) && v.trace == []
  {
    StartInv(mac, stack, added, masked);
    Node(Start(mac, stack, added, masked), Poller(false, 0), [])
  }

  /**
   The thread after a run. The stored configuration is usable, the installed flag true to the stack,
   and no DISCOVER has two ACKs.
   */
  function After(mac: seq<bv8>, stack: Stack, added: bool, masked: bool, run: seq<Turn>): (v: Node)
    requires |mac| == 6 && Turns(run)
    ensures Inv(v.p) && Session(v.p, v.trace) && AcksSince(v.trace) <= 1
  {
    Run(First(mac, stack, added, masked), run)
  }

  /** What an ACK in a trace says: it answers the session of the latest DISCOVER, the first and only time. */
  predicate AckAnswers(before: seq<Item>, x: Item) {
    var d := Latest(before);
    && d >= 0 && x.request.Some? && x.response.Some? && before[d].response.Some?
    && AcksSince(before) == 0
    && x.request.value.op == CONFIG
    && x.request.value.xid == x.response.value.xid == before[d].request.value.xid
    && x.request.value.token == before[d].response.value.token
    && x.response.value.ip == x.request.value.ip
    && x.response.value.gateway == x.request.value.gateway
    && x.response.value.prefix == x.request.value.prefix
    && x.response.value.token == 0 != before[d].response.value.token
  }

  lemma RespondAcks(p: Prov, trace: seq<Item>, request: Option<Message>, t: Turn)
    requires Inv(p) && Session(p, trace)
    ensures var (q, m) := Respond(p, request, t);
            && (Item(request, m).Acks() ==> AckAnswers(trace, Item(request, m)))
            && (Item(request, m).Acks() ==>
                  Configured(q, request.value.ip, request.value.prefix, request.value.gateway))
  {
    if request.Some? {
      AnswerTable(p, request.value, t.cycles, t.calls);
    }
  }

  lemma StepAcks(v: Node, t: Turn)
    requires Good(v) && t.box.Words()
    ensures var x := Step(v, t).trace[|v.trace|];
            x.Acks() ==>
              && AckAnswers(v.trace, x)
              && Configured(Step(v, t).p, x.request.value.ip, x.request.value.prefix, x.request.value.gateway)
  {
    PollKeeps(v.p, v.poller, t.box, t.mailCalls);
    RespondAcks(Poll(v.p, v.poller, t.box, t.mailCalls).p, v.trace, Received(t), t);
  }

  lemma {:induction false} TraceAcks(v: Node, run: seq<Turn>, j: nat)
    requires Good(v) && v.trace == [] && Turns(run)
    requires j < |Run(v, run).trace|
    ensures var trace := Run(v, run).trace;
            trace[j].Acks() ==> AckAnswers(trace[..j], trace[j])
    decreases |run|
  {
    var n := |run| - 1;
    var u := Run(v, run[..n]);
    var trace := Run(v, run).trace;
    if j < |u.trace| {
      TraceAcks(v, run[..n], j);
      assert trace[..j] == u.trace[..j];
    } else {
      StepAcks(u, run[n]);
      assert trace[..j] == u.trace;
    }
  }

  /**
   Every ACK of a run carries the xid of the latest DISCOVER and answers a CONFIG with the token that
   was offered then; nothing was acknowledged in between. Its own token field is always zero.
   */
  lemma EveryAck(mac: seq<bv8>, stack: Stack, added: bool, masked: bool, run: seq<Turn>, j: nat)
    requires |mac| == 6 && Turns(run)
    requires j < |After(mac, stack, added, masked, run).trace|
    ensures var trace := After(mac, stack, added, masked, run).trace;
            trace[j].Acks() ==> AckAnswers(trace[..j], trace[j])
  {
    TraceAcks(First(mac, stack, added, masked), run, j);
  }

  // ---- Sessions that succeed ----

  /** No request in the mailbox, and every stack call succeeds. */
  const QUIET := Box(0, 0, [0, 0, 0, 0], [0, 0, 0, 0], 0, 0, Done)
  const SUCCEED := Calls(true, true, true, true, true, true)

  function Heard(m: Message, cycles: bv32): Turn
    requires m.Sized()
  {
    Turn(QUIET, SUCCEED, Some(Encode(m)), cycles, SUCCEED)
  }

  function Discover(mac: seq<bv8>, xid: bv32): Message {
    Message(VERSION, DISCOVER, OK, 0, xid, mac, [0, 0, 0, 0], [0, 0, 0, 0], 0)
  }

  function Config(mac: seq<bv8>, xid: bv32, ip: seq<bv8>, prefix: bv8, gateway: seq<bv8>, token: bv32): Message {
    Message(VERSION, CONFIG, OK, prefix, xid, mac, ip, gateway, token)
  }

  lemma HearsMessage(v: Node, m: Message, cycles: bv32)
    requires Good(v) && m.Sized() && m.version == VERSION
    ensures var w, (q, r) := Step(v, Heard(m, cycles)), Answer(v.p, m, cycles, SUCCEED);
            w.p == q && w.trace == v.trace + [Item(Some(m), r)]
  {
    RoundTrip(m);
  }

  /** A DISCOVER is answered with an OFFER that carries the token. */
  lemma Discovered(v: Node, xid: bv32, cycles: bv32)
    requires Good(v)
    ensures var m := Discover(v.p.mac, xid);
            var w := Step(v, Heard(m, cycles));
            && Good(w) && w.p.xid == xid && w.p.token != 0 && w.p.mac == v.p.mac
            && w.trace == v.trace + [Item(Some(m), Some(Response(w.p, OFFER, OK, xid)))]
  {
    var m := Discover(v.p.mac, xid);
    StepGood(v, Heard(m, cycles));
    HearsMessage(v, m, cycles);
    AnswerTable(v.p, m, cycles, SUCCEED);
  }

  /** A CONFIG with that token and a usable address is then acknowledged. */
  lemma Acknowledged(v: Node, ip: seq<bv8>, prefix: bv8, gateway: seq<bv8>)
    requires Good(v) && v.p.token != 0 && Acceptable(ip, prefix, gateway)
    ensures var m := Config(v.p.mac, v.p.xid, ip, prefix, gateway, v.p.token);
            var w := Step(v, Heard(m, 0));
            && |w.trace| == |v.trace| + 1 && w.trace[..|v.trace|] == v.trace
            && w.trace[|v.trace|].Acks() && AckAnswers(v.trace, w.trace[|v.trace|])
            && Configured(w.p, ip, prefix, gateway)
  {
    var m := Config(v.p.mac, v.p.xid, ip, prefix, gateway, v.p.token);
    HearsMessage(v, m, 0);
    AckIff(v.p, m, 0, SUCCEED);
    StepAcks(v, Heard(m, 0));
  }

  /** The last two turns were a DISCOVER and a CONFIG that was acknowledged, with another token than the one offered. */
  predicate JustAcked(v: Node, ip: seq<bv8>, prefix: bv8, gateway: seq<bv8>) {
    var n := |v.trace| - 1;
    && n >= 1 && v.trace[n - 1].Discovers() && v.trace[n - 1].response.Some? && v.trace[n].Acks()
    && v.trace[n].response.value.token != v.trace[n - 1].response.value.token
    && Configured(v.p, ip, prefix, gateway)
  }

  /** The run can go on to w. */
  ghost predicate Reaches(v: Node, run: seq<Turn>, w: Node)
    requires Good(v)
  {
    exists longer :: run <= longer && Turns(longer) && Run(v, longer) == w
  }

  lemma RunOne(v: Node, run: seq<Turn>, t: Turn)
    requires Good(v) && Turns(run) && t.box.Words()
    ensures Turns(run + [t]) && Good(Run(v, run)) && Run(v, run + [t]) == Step(Run(v, run), t)
  {
    assert (run + [t])[..|run|] == run;
  }

  lemma ReachesOn(v: Node, run: seq<Turn>, w: Node, t: Turn)
    requires Good(v) && Reaches(v, run, w) && t.box.Words()
    ensures Good(w) && Reaches(v, run, Step(w, t))
  {
    var longer :| run <= longer && Turns(longer) && Run(v, longer) == w;
    RunOne(v, longer, t);
    assert run <= longer + [t];
  }

  /** The last turn was a DISCOVER, and its OFFER carries the token. */
  predicate JustOffered(w: Node) {
    var n := |w.trace| - 1;
    && Good(w) && n >= 0 && w.trace[n].Discovers() && w.trace[n].response.Some?
    && w.p.token == w.trace[n].response.value.token != 0
  }

  lemma OfferedNext(w: Node) returns (t: Turn)
    requires Good(w)
    ensures t.box.Words() && JustOffered(Step(w, t))
  {
    t := Heard(Discover(w.p.mac, 0), 0);
    Discovered(w, 0, 0);
  }

  /** An ACK right after an OFFER. */
  lemma AckAfterOffer(w: Node, x: Node, ip: seq<bv8>, prefix: bv8, gateway: seq<bv8>)
    requires JustOffered(w) && |x.trace| == |w.trace| + 1 && x.trace[..|w.trace|] == w.trace
    requires x.trace[|w.trace|].Acks() && AckAnswers(w.trace, x.trace[|w.trace|])
    requires Configured(x.p, ip, prefix, gateway)
    ensures JustAcked(x, ip, prefix, gateway)
  {
    var n := |w.trace| - 1;
    assert Latest(w.trace) == n && x.trace[n] == w.trace[n];
  }

  lemma AckedNext(w: Node, ip: seq<bv8>, prefix: bv8, gateway: seq<bv8>) returns (t: Turn)
    requires JustOffered(w) && Acceptable(ip, prefix, gateway)
    ensures t.box.Words() && JustAcked(Step(w, t), ip, prefix, gateway)
  {
    t := Heard(Config(w.p.mac, w.p.xid, ip, prefix, gateway, w.p.token), 0);
    Acknowledged(w, ip, prefix, gateway);
    AckAfterOffer(w, Step(w, t), ip, prefix, gateway);
  }

  lemma ReachesEnd(v: Node, run: seq<Turn>)
    requires Good(v) && Turns(run)
    ensures Reaches(v, run, Run(v, run))
  {
  }

  /**
   From every state of every run, a DISCOVER and a CONFIG get any usable address acknowledged and
   applied; and the token of the ACK is not the one that was offered.
   */
  lemma AckHappens(mac: seq<bv8>, stack: Stack, added: bool, masked: bool, run: seq<Turn>,
                   ip: seq<bv8>, prefix: bv8, gateway: seq<bv8>)
    requires |mac| == 6 && Turns(run) && Acceptable(ip, prefix, gateway)
    ensures exists w :: Reaches(First(mac, stack, added, masked), run, w) && JustAcked(w, ip, prefix, gateway)
  {
    var v := First(mac, stack, added, masked);
    ReachesEnd(v, run);
    var t := OfferedNext(Run(v, run));
    ReachesOn(v, run, Run(v, run), t);
    AckFrom(v, run, Step(Run(v, run), t), ip, prefix, gateway);
  }

  lemma AckFrom(v: Node, run: seq<Turn>, w: Node, ip: seq<bv8>, prefix: bv8, gateway: seq<bv8>)
    requires Good(v) && Reaches(v, run, w) && JustOffered(w) && Acceptable(ip, prefix, gateway)
    ensures exists x :: Reaches(v, run, x) && JustAcked(x, ip, prefix, gateway)
  {
    var t := AckedNext(w, ip, prefix, gateway);
    ReachesOn(v, run, w, t);
    var x := Step(w, t);
  }
}
