/** The provisioning statics, changed in place in the order of the code, and the frame that carries a response. */
module ProvisionBoard {
  import opened Wrappers
  import opened ProvisionCodec
  import opened ProvisionPacket
  import opened Provision
  import opened Mailbox
  import opened ResponseFrame

  /** The interface of the network stack; each call is told whether it succeeds. */
  class NetIf {
    var stack: Stack

    constructor (s: Stack)
      ensures stack == s
    {
      stack := s;
    }

    method Add(a: seq<bv8>, ok: bool) returns (added: bool)
      modifies this
      ensures stack == Attach(old(stack), a, ok) && added == ok
    {
      if ok && a !in stack.attached {
        stack := stack.(attached := stack.attached[a := 0]);
      }
      added := ok;
    }

    method Remove(a: seq<bv8>, ok: bool) returns (removed: bool)
      modifies this
      ensures stack == Detach(old(stack), a, ok) && removed == Removable(old(stack), a, ok)
    {
      removed := ok && a in stack.attached;
      if removed {
        stack := stack.(attached := stack.attached - {a});
      }
    }

    method SetNetmask(a: seq<bv8>, mask: nat, ok: bool) returns (done: bool)
      modifies this
      ensures stack == SetMask(old(stack), a, mask, ok) && done == (ok && a in old(stack).attached)
    {
      done := ok && a in stack.attached;
      if done {
        stack := stack.(attached := stack.attached[a := mask]);
      }
    }

    method SetGateway(gateway: seq<bv8>)
      modifies this
      ensures stack == old(stack).(gateway := gateway)
    {
      stack := stack.(gateway := gateway);
    }
  }

  /** What becomes of the packet of a turn; it gets the answer of the table. */
  predicate Handled(p: Prov, packet: Option<seq<bv8>>, cycles: bv32, o: Calls, q: Prov, sent: Option<Message>) {
    match packet
    case None => q == p && sent == None
    case Some(d) => |p.mac| == 6 && (q, sent) == Handle(p, d, cycles, o) && Answered(p, d, q, sent)
  }

  class Board {
    const iface: NetIf
    const mac: seq<bv8>
    var addr: seq<bv8>
    var installed: bool
    var gateway: seq<bv8>
    var prefix: bv8
    var token: bv32
    var xid: bv32
    var armed: bool
    var last: nat
    var box: Box

    ghost function State(): Prov
      reads this, iface
    {
      Prov(addr, installed, gateway, prefix, token, xid, mac, iface.stack)
    }

    ghost function Poller(): Poller
      reads this
    {
      Mailbox.Poller(armed, last)
    }

    /** emacz_provision_start, up to the thread. */
    constructor (iface: NetIf, mac: seq<bv8>, box: Box, added: bool, masked: bool)
      requires |mac| == 6
      modifies iface
      ensures this.iface == iface && this.mac == mac && this.box == box
      ensures State() == Start(mac, old(iface.stack), added, masked) && Poller() == Mailbox.Poller(false, 0)
    {
      this.iface, this.mac, this.box := iface, mac, box;
      addr, gateway, prefix := [169, 254, HostByte(mac[4] ^ 0x80), HostByte(mac[5])], [0, 0, 0, 0], 16;
      installed, token, xid, armed, last := false, 0, 0, false, 0;
      new;
      var attached := iface.Add(addr, added);
      if attached {
        installed := true;
        var _ := iface.SetNetmask(addr, PrefixMask(prefix), masked);
      }
    }

    /** The old address back in, with its mask. */
    method PutBack(o: Calls)
      modifies iface, this`installed
      ensures State() == if o.addBack then Restored(old(State()), old(iface.stack), o) else old(State())
    {
      var back := iface.Add(addr, o.addBack);
      if back {
        var _ := iface.SetNetmask(addr, PrefixMask(prefix), o.maskBack);
        installed := true;
      }
    }

    method ApplyConfig(ip: seq<bv8>, prefix': bv8, gateway': seq<bv8>, o: Calls) returns (ret: Return)
      modifies iface, this`installed, this`addr, this`gateway, this`prefix
      ensures (State(), ret) == Apply(old(State()), ip, prefix', gateway', o)
      ensures ret == Done <==> Acceptable(ip, prefix', gateway') && CallsSucceed(old(State()), o)
      ensures if ret == Done then Configured(State(), ip, prefix', gateway') else SameTriple(old(State()), State())
    {
      DoneIff(State(), ip, prefix', gateway', o);
      if !Acceptable(ip, prefix', gateway') {
        return Invalid;
      }
      if installed {
        var removed := iface.Remove(addr, o.removeOld);
        if !removed {
          return IoError;
        }
      }
      installed := false;
      var added := iface.Add(ip, o.addNew);
      if !added {
        PutBack(o);
        return NoMemory;
      }
      var masked := iface.SetNetmask(ip, PrefixMask(prefix'), o.maskNew);
      if !masked {
        var _ := iface.Remove(ip, o.removeNew);
        PutBack(o);
        return IoError;
      }
      iface.SetGateway(gateway');
      installed, addr, gateway, prefix := true, ip, gateway', prefix';
      return Done;
    }

    method PollMailbox(o: Calls) returns (served: bool)
      requires box.Words()
      modifies iface, this`installed, this`addr, this`gateway, this`prefix, this`armed, this`last, this`box
      ensures Polled(State(), Poller(), box, served) == Poll(old(State()), old(Poller()), old(box), o)
    {
      if box.magic != MAILBOX_MAGIC {
        armed := false;
        return false;
      }
      var epoch := box.epoch;
      if !armed {
        armed := true;
        if box.ack == epoch {
          last := epoch;
          return false;
        }
      } else if epoch == last {
        return false;
      }
      var p := PrefixByte(box.prefix);
      if !Acceptable(box.ip, p, box.gateway) {
        box := box.(status := Invalid, ack := epoch);
        last := epoch;
        return true;
      }
      var ret := ApplyConfig(box.ip, p, box.gateway, o);
      box := box.(status := ret, ack := epoch);
      last := epoch;
      return true;
    }

    method StartSession(id: bv32, cycles: bv32)
      requires |mac| == 6
      modifies this`token, this`xid
      ensures State() == old(State()).(xid := id, token := NewToken(cycles, id, FromBe32(mac[2..6])))
    {
      xid := id;
      token := cycles ^ id ^ FromBe32(mac[2..6]) ^ MAGIC;
      if token == 0 {
        token := 1;
      }
    }

    /** The address change of a CONFIG that passed the checks, and the response. */
    method ConfigureNow(r: Message, o: Calls) returns (sent: Option<Message>)
      modifies iface, this`installed, this`addr, this`gateway, this`prefix, this`token
      ensures (State(), sent) == Configure(old(State()), r, o)
    {
      var ret := ApplyConfig(r.ip, r.prefix, r.gateway, o);
      if ret != Done {
        return Some(ResponseNow(NACK, APPLY_FAILED, r.xid));
      }
      token := 0;
      return Some(ResponseNow(ACK, OK, r.xid));
    }

    /** What follows a decoded message. */
    method AnswerMessage(r: Message, cycles: bv32, o: Calls) returns (sent: Option<Message>)
      requires |mac| == 6
      modifies iface, this`installed, this`addr, this`gateway, this`prefix, this`token, this`xid
      ensures (State(), sent) == Answer(old(State()), r, cycles, o)
    {
      if r.op == DISCOVER {
        StartSession(r.xid, cycles);
        return Some(ResponseNow(OFFER, OK, r.xid));
      }
      if r.op != CONFIG || r.mac != mac {
        return None;
      }
      if r.xid != xid || r.token == 0 || r.token != token {
        return Some(ResponseNow(NACK, BAD_TOKEN, r.xid));
      }
      if !Acceptable(r.ip, r.prefix, r.gateway) {
        return Some(ResponseNow(NACK, BAD_ADDRESS, r.xid));
      }
      sent := ConfigureNow(r, o);
    }

    /** The configuration is usable and the mailbox has its words. */
    ghost predicate Valid()
      reads this, iface
    {
      Inv(State()) && box.Words()
    }

    /** send_response: the frame that goes out, if there is a response. */
    method SendResponse(sent: Option<Message>) returns (frame: array?<bv8>)
      requires sent.Some? ==> sent.value.Sized()
      ensures if sent.None? then frame == null else frame != null && fresh(frame) && frame[..] == Frame(sent.value)
    {
      if sent == None {
        return null;
      }
      frame := Build(sent.value);
    }

    /** The answer to one packet. */
    method AnswerPacket(packet: array<bv8>, cycles: bv32, calls: Calls) returns (sent: Option<Message>)
      requires Inv(State())
      modifies iface, this`installed, this`addr, this`gateway, this`prefix, this`token, this`xid
      ensures Handled(old(State()), Some(old(packet[..])), cycles, calls, State(), sent)
      ensures Inv(State()) && (sent.Some? ==> sent.value.Sized())
    {
      HandleTable(State(), packet[..], cycles, calls);
      var message := DecodeMessage(packet, packet.Length);
      assert packet[..packet.Length] == packet[..];
      if message == None {
        return None;
      }
      AnswerSized(State(), message.value, cycles, calls);
      sent := AnswerMessage(message.value, cycles, calls);
    }

    /** The packet of a turn, and the frame that goes out. */
    method Respond(packet: array<bv8>, cycles: bv32, calls: Calls)
      returns (sent: Option<Message>, frame: array?<bv8>)
      requires Inv(State())
      modifies iface, this`installed, this`addr, this`gateway, this`prefix, this`token, this`xid
      ensures Inv(State()) && Handled(old(State()), Some(old(packet[..])), cycles, calls, State(), sent)
      ensures if sent.None? then frame == null
              else sent.value.Sized() && frame != null && fresh(frame) && frame[..] == Frame(sent.value)
    {
      sent := AnswerPacket(packet, cycles, calls);
      frame := SendResponse(sent);
    }

    /** The mailbox poll of a turn. */
    method PollFirst(calls: Calls)
      requires Valid()
      modifies iface, this`installed, this`addr, this`gateway, this`prefix, this`armed, this`last, this`box
      ensures Valid()
      ensures var polled := Poll(old(State()), old(Poller()), old(box), calls);
              State() == polled.p && Poller() == polled.poller && box == polled.box
    {
      PollKeeps(State(), Poller(), box, calls);
      var _ := PollMailbox(calls);
    }

    /**
     One turn of the thread loop: the mailbox first, then the packet, if the queue had one, then the frame of
     the response, if there is one. A packet gets the answer of the table.
     */
    method ThreadTurn(packet: array?<bv8>, cycles: bv32, mailCalls: Calls, calls: Calls)
      returns (sent: Option<Message>, frame: array?<bv8>)
      requires Valid()
      modifies iface, this
      ensures Valid()
      ensures var polled := Poll(old(State()), old(Poller()), old(box), mailCalls);
              && Poller() == polled.poller && box == polled.box
              && Handled(polled.p, if packet == null then None else Some(old(packet[..])), cycles, calls, State(), sent)
      ensures if sent.None? then frame == null
              else sent.value.Sized() && frame != null && fresh(frame) && frame[..] == Frame(sent.value)
    {
      PollFirst(mailCalls);
      if packet == null {
        return None, null;
      }
      sent, frame := Respond(packet, cycles, calls);
    }

    function ResponseNow(op: bv8, status: bv8, id: bv32): (m: Message)
      reads this
    {
      Message(VERSION, op, status, prefix, id, mac, addr, gateway, token)
    }
  }
}
