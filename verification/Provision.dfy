/** The provisioning thread: discover, offer, config, ack, and the address change with its rollback. */
module Provision {
  import opened Wrappers
  import opened Modular
  import opened BigEndian
  import opened Bits
  import opened AddressCheck
  import opened ProvisionCodec

  const DISCOVER: bv8 := 1
  const OFFER: bv8 := 2
  const CONFIG: bv8 := 3
  const ACK: bv8 := 4
  const NACK: bv8 := 5

  const OK: bv8 := 0
  const BAD_TOKEN: bv8 := 2
  const BAD_ADDRESS: bv8 := 3
  const APPLY_FAILED: bv8 := 4

  // ---- The network stack ----

  /** Addresses attached to the interface with their netmasks, and its gateway. */
  datatype Stack = Stack(attached: map<seq<bv8>, nat>, gateway: seq<bv8>)

  /** Which of the stack calls of one address change succeed. */
  datatype Calls = Calls(removeOld: bool, addNew: bool, maskNew: bool, removeNew: bool, addBack: bool, maskBack: bool)

  /** net_if_ipv4_addr_add: an address already there stays as it is. */
  function Attach(s: Stack, a: seq<bv8>, ok: bool): Stack {
    if ok && a !in s.attached then s.(attached := s.attached[a := 0]) else s
  }

  predicate Removable(s: Stack, a: seq<bv8>, ok: bool) {
    ok && a in s.attached
  }

  function Detach(s: Stack, a: seq<bv8>, ok: bool): Stack {
    if Removable(s, a, ok) then s.(attached := s.attached - {a}) else s
  }

  function SetMask(s: Stack, a: seq<bv8>, mask: nat, ok: bool): Stack {
    if ok && a in s.attached then s.(attached := s.attached[a := mask]) else s
  }

  function PrefixMask(prefix: bv8): nat {
    if prefix == 0 then 0 else if prefix as int <= 32 then Shl(WORD - 1, 32 - prefix as int) else 0
  }

  // ---- The stored configuration ----

  datatype Prov = Prov(addr: seq<bv8>, installed: bool, gateway: seq<bv8>, prefix: bv8,
                       token: bv32, xid: bv32, mac: seq<bv8>, stack: Stack)

  datatype Return = Done | Invalid | IoError | NoMemory

  predicate Acceptable(ip: seq<bv8>, prefix: bv8, gateway: seq<bv8>) {
    |ip| == 4 && |gateway| == 4 && Usable(FromBytes(ip), prefix as int, FromBytes(gateway))
  }

  /** The old address is put back, if the stack lets it. */
  function Restored(p: Prov, s: Stack, o: Calls): Prov {
    if o.addBack then
      p.(installed := true, stack := SetMask(Attach(s, p.addr, true), p.addr, PrefixMask(p.prefix), o.maskBack))
    else p.(installed := false, stack := s)
  }

  /** The stack calls of an address change. */
  function Change(p: Prov, ip: seq<bv8>, prefix: bv8, gateway: seq<bv8>, o: Calls): (Prov, Return) {
    if p.installed && !Removable(p.stack, p.addr, o.removeOld) then (p, IoError)
    else
      var bare := if p.installed then Detach(p.stack, p.addr, o.removeOld) else p.stack;
      if !o.addNew then (Restored(p, bare, o), NoMemory)
      else
        var added := Attach(bare, ip, true);
        if !o.maskNew then (Restored(p, Detach(added, ip, o.removeNew), o), IoError)
        else
          (p.(addr := ip, gateway := gateway, prefix := prefix, installed := true,
              stack := SetMask(added, ip, PrefixMask(prefix), true).(gateway := gateway)), Done)
  }

  /** apply_config. */
  function Apply(p: Prov, ip: seq<bv8>, prefix: bv8, gateway: seq<bv8>, o: Calls): (Prov, Return) {
    if Acceptable(ip, prefix, gateway) then Change(p, ip, prefix, gateway, o) else (p, Invalid)
  }

  // ---- The thread ----

  /** send_response: the stored configuration, and the token as it stands. */
  function Response(p: Prov, op: bv8, status: bv8, xid: bv32): Message {
    Message(VERSION, op, status, p.prefix, xid, p.mac, p.addr, p.gateway, p.token)
  }

  /** The token of a DISCOVER that arrives at this cycle count; the word is the last four bytes of the MAC. */
  function NewToken(cycles: bv32, xid: bv32, word: bv32): (t: bv32)
    ensures t != 0
  {
    var t := cycles ^ xid ^ word ^ MAGIC;
    if t == 0 then 1 else t
  }

  /** A CONFIG for this board that carries the current xid and token and a usable address. */
  function Configure(p: Prov, r: Message, o: Calls): (Prov, Option<Message>) {
    match Apply(p, r.ip, r.prefix, r.gateway, o)
    case (q, Done) =>
      var q' := q.(token := 0);
      (q', Some(Response(q', ACK, OK, r.xid)))
    case (q, _) => (q, Some(Response(q, NACK, APPLY_FAILED, r.xid)))
  }

  predicate Current(p: Prov, r: Message) {
    r.xid == p.xid && r.token != 0 && r.token == p.token
  }

  /** What the thread does with one decoded message, and what it sends. */
  function Answer(p: Prov, r: Message, cycles: bv32, o: Calls): (Prov, Option<Message>)
    requires |p.mac| == 6
  {
    if r.op == DISCOVER then
      var q := p.(xid := r.xid, token := NewToken(cycles, r.xid, FromBe32(p.mac[2..6])));
      (q, Some(Response(q, OFFER, OK, r.xid)))
    else if r.op != CONFIG || r.mac != p.mac then (p, None)
    else if !Current(p, r) then (p, Some(Response(p, NACK, BAD_TOKEN, r.xid)))
    else if !Acceptable(r.ip, r.prefix, r.gateway) then (p, Some(Response(p, NACK, BAD_ADDRESS, r.xid)))
    else Configure(p, r, o)
  }

  function Handle(p: Prov, packet: seq<bv8>, cycles: bv32, o: Calls): (Prov, Option<Message>)
    requires |p.mac| == 6
  {
    match Decode(packet)
    case None => (p, None)
    case Some(r) => Answer(p, r, cycles, o)
  }

  // ---- Start ----

  /** Zero and 255 are kept out of the last two bytes. */
  function HostByte(b: bv8): bv8 {
    if b == 0 || b == 255 then 1 else b
  }

  function Bootstrap(mac: seq<bv8>): (a: seq<bv8>)
    requires |mac| == 6
    ensures |a| == 4
  {
    [169, 254, HostByte(mac[4] ^ 0x80), HostByte(mac[5])]
  }

  /** emacz_provision_start: static state is zero, and a failed bootstrap does not stop the thread. */
  function Start(mac: seq<bv8>, stack: Stack, added: bool, masked: bool): Prov
    requires |mac| == 6
  {
    var a := Bootstrap(mac);
    Prov(a, added, [0, 0, 0, 0], 16, 0, 0, mac,
         if added then SetMask(Attach(stack, a, true), a, PrefixMask(16), masked) else stack)
  }

  // ---- What every step keeps ----

  /** The mask that is installed is the netmask of the prefix. */
  lemma PrefixMaskIs(prefix: bv8)
    ensures PrefixMask(prefix) == Netmask(prefix as int)
  {
    Bits.Word32();
    if 1 <= prefix as int <= 32 {
      MaskIs(prefix as int);
    }
  }

  predicate Truthful(p: Prov) {
    p.installed ==> p.addr in p.stack.attached
  }

  predicate Inv(p: Prov) {
    |p.mac| == 6 && Acceptable(p.addr, p.prefix, p.gateway) && Truthful(p)
  }

  predicate SameTriple(p: Prov, q: Prov) {
    q.addr == p.addr && q.prefix == p.prefix && q.gateway == p.gateway
  }

  predicate Configured(q: Prov, ip: seq<bv8>, prefix: bv8, gateway: seq<bv8>) {
    && q.addr == ip && q.prefix == prefix && q.gateway == gateway == q.stack.gateway
    && q.installed && ip in q.stack.attached && q.stack.attached[ip] == Netmask(prefix as int)
  }

  lemma RestoredKeeps(p: Prov, s: Stack, o: Calls)
    ensures var q := Restored(p, s, o);
            && Truthful(q) && q.mac == p.mac && q.xid == p.xid && q.token == p.token
            && SameTriple(p, q) && q.stack.gateway == s.gateway
  {
  }

  lemma ChangeKeeps(p: Prov, ip: seq<bv8>, prefix: bv8, gateway: seq<bv8>, o: Calls)
    requires Truthful(p)
    ensures var (q, ret) := Change(p, ip, prefix, gateway, o);
            && Truthful(q) && q.mac == p.mac && q.xid == p.xid && q.token == p.token
            && ret != Invalid
            && if ret == Done then Configured(q, ip, prefix, gateway)
               else SameTriple(p, q) && q.stack.gateway == p.stack.gateway
  {
    PrefixMaskIs(prefix);
    var bare := if p.installed then Detach(p.stack, p.addr, o.removeOld) else p.stack;
    RestoredKeeps(p, bare, o);
    RestoredKeeps(p, Detach(Attach(bare, ip, true), ip, o.removeNew), o);
  }

  /** The stack calls of a change that all have to succeed. */
  predicate CallsSucceed(p: Prov, o: Calls) {
    (p.installed ==> Removable(p.stack, p.addr, o.removeOld)) && o.addNew && o.maskNew
  }

  /** A change is done exactly if the address is acceptable and the calls for it succeed. */
  lemma DoneIff(p: Prov, ip: seq<bv8>, prefix: bv8, gateway: seq<bv8>, o: Calls)
    ensures var (q, ret) := Apply(p, ip, prefix, gateway, o);
            && (ret == Done <==> Acceptable(ip, prefix, gateway) && CallsSucceed(p, o))
            && (if ret == Done then Configured(q, ip, prefix, gateway) else SameTriple(p, q))
  {
    PrefixMaskIs(prefix);
  }

  /** Each return has its one cause: the first call of the change that fails, or the address itself. */
  lemma ReturnTells(p: Prov, ip: seq<bv8>, prefix: bv8, gateway: seq<bv8>, o: Calls)
    ensures var ret := Apply(p, ip, prefix, gateway, o).1;
            var removed := p.installed ==> Removable(p.stack, p.addr, o.removeOld);
            && (ret == Invalid <==> !Acceptable(ip, prefix, gateway))
            && (ret != Invalid ==> (ret == NoMemory <==> removed && !o.addNew))
            && (ret != Invalid ==> (ret == IoError <==> !removed || (o.addNew && !o.maskNew)))
  {
  }

  /** After a change the new address is attached in place of the old one; nothing else is touched. */
  lemma DoneStack(p: Prov, ip: seq<bv8>, prefix: bv8, gateway: seq<bv8>, o: Calls)
    requires Apply(p, ip, prefix, gateway, o).1 == Done
    ensures var q := Apply(p, ip, prefix, gateway, o).0;
            && q.stack.attached.Keys == p.stack.attached.Keys - (if p.installed then {p.addr} else {}) + {ip}
            && OthersKept(p.stack, q.stack, p.addr, ip)
  {
  }

  /**
   An address change takes effect wholly or leaves the stored triple as it was; either way the
   installed flag tells the truth about the stored address, whichever stack calls fail.
   */
  lemma ApplyKeeps(p: Prov, ip: seq<bv8>, prefix: bv8, gateway: seq<bv8>, o: Calls)
    requires Inv(p)
    ensures var (q, ret) := Apply(p, ip, prefix, gateway, o);
            && Inv(q) && q.mac == p.mac && q.xid == p.xid && q.token == p.token
            && (ret == Invalid <==> !Acceptable(ip, prefix, gateway))
            && (ret == Invalid ==> q == p)
            && if ret == Done then Configured(q, ip, prefix, gateway)
               else SameTriple(p, q) && q.stack.gateway == p.stack.gateway
  {
    ChangeKeeps(p, ip, prefix, gateway, o);
  }

  /** Addresses other than the two of the change, and their masks. */
  predicate OthersKept(s: Stack, t: Stack, a: seq<bv8>, b: seq<bv8>) {
    forall c :: c in s.attached && c != a && c != b ==> c in t.attached && t.attached[c] == s.attached[c]
  }

  predicate HasMask(s: Stack, a: seq<bv8>, mask: int) {
    a in s.attached && s.attached[a] == mask
  }

  /** The mask of an address, zero until it is attached and given one. */
  function MaskOf(s: Stack, a: seq<bv8>): nat {
    if a in s.attached then s.attached[a] else 0
  }

  /** Putting the old address back touches no other. */
  lemma RestoredPuts(p: Prov, s: Stack, o: Calls)
    ensures var q := Restored(p, s, o);
            && q.installed == o.addBack
            && (o.addBack && o.maskBack ==> HasMask(q.stack, p.addr, Netmask(p.prefix as int)))
            && OthersKept(s, q.stack, p.addr, p.addr)
  {
    PrefixMaskIs(p.prefix);
  }

  /**
   A failed change from an installed address leaves it installed exactly when it was never removed
   or could be put back, with its mask if that call succeeds too.
   */
  lemma RollbackRestores(p: Prov, ip: seq<bv8>, prefix: bv8, gateway: seq<bv8>, o: Calls)
    requires Truthful(p) && p.installed && Change(p, ip, prefix, gateway, o).1 != Done
    ensures var q := Change(p, ip, prefix, gateway, o).0;
            && (q.installed <==> !o.removeOld || o.addBack)
            && (q.installed && o.maskBack && HasMask(p.stack, p.addr, Netmask(p.prefix as int)) ==>
                  HasMask(q.stack, p.addr, Netmask(p.prefix as int)))
            && OthersKept(p.stack, q.stack, p.addr, ip)
  {
    if o.removeOld {
      var bare := Detach(p.stack, p.addr, true);
      var s := if o.addNew then Detach(Attach(bare, ip, true), ip, o.removeNew) else bare;
      assert Change(p, ip, prefix, gateway, o).0 == Restored(p, s, o);
      RestoredPuts(p, s, o);
      assert OthersKept(p.stack, s, p.addr, ip);
    }
  }

  /** What a failed change leaves of the new address: if its mask was refused it is taken off, if the stack lets it. */
  lemma FailureLeaves(p: Prov, ip: seq<bv8>, prefix: bv8, gateway: seq<bv8>, o: Calls)
    requires Apply(p, ip, prefix, gateway, o).1 != Done
    ensures var (q, ret) := Apply(p, ip, prefix, gateway, o);
            var removed := p.installed ==> Removable(p.stack, p.addr, o.removeOld);
            && (ret == Invalid || !removed ==> q == p)
            && (ret == IoError && removed ==>
                  (ip in q.stack.attached <==> !o.removeNew || (ip == p.addr && o.addBack)))
            && (ret == IoError && removed && !o.removeNew && ip != p.addr ==> HasMask(q.stack, ip, MaskOf(p.stack, ip)))
            && (ret == NoMemory && ip != p.addr ==> (ip in q.stack.attached <==> ip in p.stack.attached))
            && q.stack.gateway == p.stack.gateway
  {
  }

  lemma AnswerKeeps(p: Prov, r: Message, cycles: bv32, o: Calls)
    requires Inv(p)
    ensures Inv(Answer(p, r, cycles, o).0) && Answer(p, r, cycles, o).0.mac == p.mac
  {
    ApplyKeeps(p, r.ip, r.prefix, r.gateway, o);
  }

  lemma ConfigureShape(p: Prov, r: Message, o: Calls)
    ensures var (q, m) := Configure(p, r, o);
            m.Some? && m.value == Response(q, m.value.op, m.value.status, r.xid)
  {
  }

  lemma AnswerShape(p: Prov, r: Message, cycles: bv32, o: Calls)
    requires |p.mac| == 6
    ensures var (q, m) := Answer(p, r, cycles, o);
            m.Some? ==> m.value == Response(q, m.value.op, m.value.status, r.xid)
  {
    ConfigureShape(p, r, o);
  }

  /** Whatever is answered fits its packet: it carries the stored configuration as it stands afterwards. */
  lemma AnswerSized(p: Prov, r: Message, cycles: bv32, o: Calls)
    requires Inv(p)
    ensures var (q, m) := Answer(p, r, cycles, o);
            Inv(q) && (m.Some? ==> m.value == Response(q, m.value.op, m.value.status, r.xid) && m.value.Sized())
  {
    AnswerKeeps(p, r, cycles, o);
    var (q, m) := Answer(p, r, cycles, o);
    if m.Some? {
      AnswerShape(p, r, cycles, o);
    }
  }

  // ---- The table of answers ----

  /** The first answer to a DISCOVER: the stored configuration and a token, which is now the session's. */
  predicate Offers(p: Prov, r: Message, q: Prov, m: Message) {
    && m == Message(VERSION, OFFER, OK, p.prefix, r.xid, p.mac, p.addr, p.gateway, q.token)
    && q.token != 0 && q == p.(xid := r.xid, token := q.token)
  }

  /** An ACK answers a CONFIG with the current xid and token, reports the new configuration, and uses the token up. */
  predicate RightAck(p: Prov, r: Message, q: Prov, m: Message) {
    && r.op == CONFIG && r.mac == p.mac && r.xid == p.xid && r.token == p.token != 0
    && Acceptable(r.ip, r.prefix, r.gateway) && Configured(q, r.ip, r.prefix, r.gateway)
    && m == Message(VERSION, ACK, OK, r.prefix, r.xid, p.mac, r.ip, r.gateway, 0)
    && q.token == 0 && q.xid == p.xid
  }

  /** A NACK reports the configuration that stays and the one cause there is; the session goes on. */
  predicate Refuses(p: Prov, r: Message, q: Prov, m: Message) {
    var stranger := r.xid != p.xid || r.token != p.token || r.token == 0;
    && m == Message(VERSION, NACK, m.status, p.prefix, r.xid, p.mac, p.addr, p.gateway, p.token)
    && SameTriple(p, q) && q.token == p.token && q.xid == p.xid
    && (m.status == BAD_TOKEN <==> stranger)
    && (m.status == BAD_ADDRESS <==> !stranger && !Acceptable(r.ip, r.prefix, r.gateway))
    && (m.status == APPLY_FAILED <==> !stranger && Acceptable(r.ip, r.prefix, r.gateway))
    && (m.status != APPLY_FAILED ==> q == p)
  }

  /** What is sent for a message r: nothing exactly if it is no DISCOVER and no CONFIG of this board. */
  predicate Answers(p: Prov, r: Message, q: Prov, sent: Option<Message>) {
    var mine := r.op == CONFIG && r.mac == p.mac;
    && (sent.None? <==> r.op != DISCOVER && !mine)
    && (sent.None? ==> q == p)
    && (r.op == DISCOVER ==> Offers(p, r, q, sent.value))
    && (mine ==> RightAck(p, r, q, sent.value) || Refuses(p, r, q, sent.value))
  }

  /** A packet that does not decode changes nothing and gets no answer. */
  predicate Answered(p: Prov, packet: seq<bv8>, q: Prov, sent: Option<Message>) {
    match Decode(packet)
    case None => q == p && sent == None
    case Some(r) => Answers(p, r, q, sent)
  }

  lemma ConfigureTable(p: Prov, r: Message, o: Calls)
    requires Inv(p) && r.op == CONFIG && r.mac == p.mac && Current(p, r) && Acceptable(r.ip, r.prefix, r.gateway)
    ensures var (q, m) := Configure(p, r, o);
            m.Some? && (RightAck(p, r, q, m.value) || Refuses(p, r, q, m.value))
  {
    ApplyKeeps(p, r.ip, r.prefix, r.gateway, o);
    var (q, ret) := Apply(p, r.ip, r.prefix, r.gateway, o);
    if ret != Done {
      assert Refuses(p, r, q, Response(q, NACK, APPLY_FAILED, r.xid));
    }
  }

  /** Every message gets the answer of the table, however the stack calls come out. */
  lemma AnswerTable(p: Prov, r: Message, cycles: bv32, o: Calls)
    requires Inv(p)
    ensures var (q, m) := Answer(p, r, cycles, o);
            && Answers(p, r, q, m)
            && (r.op == DISCOVER ==> q.token == NewToken(cycles, r.xid, FromBe32(p.mac[2..6])))
  {
    if r.op == CONFIG && r.mac == p.mac && Current(p, r) && Acceptable(r.ip, r.prefix, r.gateway) {
      ConfigureTable(p, r, o);
    }
  }

  lemma HandleTable(p: Prov, packet: seq<bv8>, cycles: bv32, o: Calls)
    requires Inv(p)
    ensures var (q, sent) := Handle(p, packet, cycles, o);
            Answered(p, packet, q, sent)
  {
    var m := Decode(packet);
    if m.Some? {
      AnswerTable(p, m.value, cycles, o);
    }
  }

  /** The token that this key makes of a cycle count; it is never zero. */
  predicate Keyed(t: bv32, cycles: bv32, key: bv32) {
    t != 0 && (t ^ key == cycles || (t == 1 && key == cycles))
  }

  lemma XorBack(c: bv32, key: bv32)
    ensures (c ^ key) ^ key == c && (c ^ key == 0 ==> key == c)
  {
  }

  lemma XorKeyed(c: bv32, key: bv32, x: bv32)
    requires x == c ^ key
    ensures Keyed(if x == 0 then 1 else x, c, key)
  {
    XorBack(c, key);
  }

  lemma XorGroup(c: bv32, x: bv32, w: bv32, key: bv32)
    requires key == x ^ w ^ MAGIC
    ensures c ^ x ^ w ^ MAGIC == c ^ key
  {
  }

  /**
   The token gives back the cycle count of its DISCOVER, unless it was replaced by 1: two sessions with
   one xid share a token only at equal cycle counts.
   */
  lemma TokenTells(cycles: bv32, xid: bv32, word: bv32, key: bv32)
    requires key == xid ^ word ^ MAGIC
    ensures Keyed(NewToken(cycles, xid, word), cycles, key)
  {
    XorGroup(cycles, xid, word, key);
    XorKeyed(cycles, key, cycles ^ key);
  }

  lemma HostByteRange(b: bv8)
    ensures 1 <= HostByte(b) as int <= 254
  {
  }

  /** The bootstrap address is a usable one of the range 169.254.1.0 to 169.254.254.255, for every MAC. */
  lemma BootstrapUsable(mac: seq<bv8>)
    requires |mac| == 6
    ensures Acceptable(Bootstrap(mac), 16, [0, 0, 0, 0])
    ensures 0xA9FE_0100 <= FromBytes(Bootstrap(mac)) <= 0xA9FE_FEFF
  {
    var a := Bootstrap(mac);
    HostByteRange(mac[4] ^ 0x80);
    HostByteRange(mac[5]);
    FromDigits(a, 169, 254, a[2] as int, a[3] as int);
    FromDigits([0, 0, 0, 0], 0, 0, 0, 0);
    LinkLocal(FromBytes(a), a[2] as int, a[3] as int);
  }

  /** The last two bytes of the address give back those of the MAC, but for 1, which stands for three. */
  lemma BootstrapTells(mac: seq<bv8>)
    requires |mac| == 6
    ensures var a := Bootstrap(mac);
            && (if a[2] == 1 then mac[4] in {0x7F, 0x80, 0x81} else mac[4] == a[2] ^ 0x80)
            && (if a[3] == 1 then mac[5] in {0, 1, 255} else mac[5] == a[3])
  {
    Flipped(mac[4]);
  }

  /** Two boards get one bootstrap address exactly if the last two bytes of their MACs agree or become 1. */
  lemma BootstrapCollides(m: seq<bv8>, n: seq<bv8>)
    requires |m| == |n| == 6
    ensures Bootstrap(m) == Bootstrap(n) <==>
            && (m[4] == n[4] || {m[4], n[4]} <= {0x7F, 0x80, 0x81})
            && (m[5] == n[5] || {m[5], n[5]} <= {0, 1, 255})
  {
    HostBytesMeet(m[4] ^ 0x80, n[4] ^ 0x80);
    HostBytesMeet(m[5], n[5]);
    Flipped(m[4]);
    Flipped(n[4]);
  }

  lemma HostBytesMeet(x: bv8, y: bv8)
    ensures HostByte(x) == HostByte(y) <==> x == y || {x, y} <= {0, 1, 255}
  {
  }

  lemma Flipped(b: bv8)
    ensures b ^ 0x80 == 0 <==> b == 0x80
    ensures b ^ 0x80 == 1 <==> b == 0x81
    ensures b ^ 0x80 == 255 <==> b == 0x7F
    ensures b ^ 0x80 ^ 0x80 == b
  {
  }

  lemma LinkLocal(ip: nat, x: nat, y: nat)
    requires 1 <= x <= 254 && 1 <= y <= 254 && ip == ((169 * 0x100 + 254) * 0x100 + x) * 0x100 + y
    ensures ip < WORD && Usable(ip, 16, 0) && 0xA9FE_0100 <= ip <= 0xA9FE_FEFF
  {
    BoardCheck(ip, 16, 0);
    Word16();
    ModUnique(ip, 0xA9FE, x * 0x100 + y, 0x1_0000);
  }

  /** At the start the bootstrap address is attached if the stack took it, and no session has a token. */
  lemma StartTells(mac: seq<bv8>, stack: Stack, added: bool, masked: bool)
    requires |mac| == 6
    ensures var p := Start(mac, stack, added, masked);
            && p.installed == added && p.token == 0 && p.mac == mac
            && p.addr == Bootstrap(mac) && p.prefix == 16 && p.gateway == [0, 0, 0, 0]
            && (added && masked ==> HasMask(p.stack, p.addr, Netmask(16)))
            && (added && !masked ==> HasMask(p.stack, p.addr, MaskOf(stack, p.addr)))
            && p.stack.attached.Keys == stack.attached.Keys + (if added then {p.addr} else {})
            && p.stack.gateway == stack.gateway && OthersKept(stack, p.stack, p.addr, p.addr)
  {
    PrefixMaskIs(16);
  }

  lemma StartInv(mac: seq<bv8>, stack: Stack, added: bool, masked: bool)
    requires |mac| == 6
    ensures Inv(Start(mac, stack, added, masked))
  {
    BootstrapUsable(mac);
  }
}
