/** The Ethernet frame that carries a provisioning response. */
module ResponseFrame {
  import opened Wrappers
  import opened Crc32
  import opened ProvisionCodec
  import opened ProvisionPacket
  import opened InternetChecksum

  const HEADERS := 42
  const FRAME_SIZE := 78

  /** 239.255.77.90 and the Ethernet group address it maps to. */
  const GROUP: seq<bv8> := [239, 255, 77, 90]
  const GROUP_MAC: seq<bv8> := [0x01, 0x00, 0x5E, 0x7F, 0x4D, 0x5A]

  /** The IP header before its checksum is filled in. */
  function IpHeader(m: Message): (h: seq<bv8>)
    requires m.Sized()
    ensures |h| == 20 && h[10] == h[11] == 0
  {
    [0x45, 0, 0, 64] + [Low(m.xid >> 8), Low(m.xid), 0, 0] + [1, 17, 0, 0] + m.ip + GROUP
  }

  /** Ports 5004, length 44, no checksum. */
  const UDP_HEADER: seq<bv8> := [0x13, 0x8C, 0x13, 0x8C] + [0, 44, 0, 0]

  /** The frame in order of its bytes. */
  function Frame(m: Message): (f: seq<bv8>)
    requires m.Sized()
    ensures |f| == FRAME_SIZE
  {
    GROUP_MAC + m.mac + [0x08, 0x00] + Filled(IpHeader(m), 10, Checksum(IpHeader(m))) + UDP_HEADER + Encode(m)
  }

  lemma Cuts(head: seq<bv8>, ip: seq<bv8>, udp: seq<bv8>, body: seq<bv8>)
    requires |head| == 14 && |ip| == 20 && |udp| == 8
    ensures (head + ip + udp + body)[14..34] == ip && (head + ip + udp + body)[HEADERS..] == body
  {
  }

  /** The Ethernet group address of an IP group address: section 6.4 of RFC 1112 takes its low 23 bits. */
  function GroupMac(group: seq<bv8>): seq<bv8>
    requires |group| == 4
  {
    [0x01, 0x00, 0x5E, group[1] & 0x7F, group[2], group[3]]
  }

  /** Where the parts of a frame lie. */
  lemma Parts(mac: seq<bv8>, ip: seq<bv8>, udp: seq<bv8>, body: seq<bv8>)
    requires |mac| == 6 && |ip| == 20 && |udp| == 8
    ensures var f := GROUP_MAC + mac + [0x08, 0x00] + ip + udp + body;
            && f[0..6] == GROUP_MAC && f[6..12] == mac && f[12..14] == [0x08, 0x00]
            && f[14..34] == ip && f[34..42] == udp && f[42..] == body
  {
  }

  /** The words of the IP header but for its checksum. */
  lemma IpFields(m: Message, c: nat)
    requires m.Sized() && c <= 0xFFFF
    ensures var h := Filled(IpHeader(m), 10, c);
            && h[0..2] == [0x45, 0] && Be16(h[2], h[3]) == 64 && (Word(h[4]) << 8) | Word(h[5]) == m.xid & 0xFFFF
            && h[6..10] == [0, 0, 1, 17] && h[12..16] == m.ip && h[16..20] == [239, 255, 77, 90]
  {
    HeaderFields(m);
    var h, g := IpHeader(m), Filled(IpHeader(m), 10, c);
    assert forall k :: 0 <= k < 20 && k != 10 && k != 11 ==> g[k] == h[k];
    assert g[0..2] == h[0..2] && g[6..10] == h[6..10] && g[12..16] == h[12..16] && g[16..20] == h[16..20];
  }

  lemma HeaderFields(m: Message)
    requires m.Sized()
    ensures var h := IpHeader(m);
            && h[0..2] == [0x45, 0] && Be16(h[2], h[3]) == 64 && (Word(h[4]) << 8) | Word(h[5]) == m.xid & 0xFFFF
            && h[6..10] == [0, 0, 1, 17] && h[12..16] == m.ip && h[16..20] == [239, 255, 77, 90]
  {
    LowBytes(m.xid);
    var h := IpHeader(m);
    assert h[4] == Low(m.xid >> 8) && h[5] == Low(m.xid);
  }

  lemma LowBytes(x: bv32)
    ensures (Word(Low(x >> 8)) << 8) | Word(Low(x)) == x & 0xFFFF
  {
  }

  lemma UdpFields()
    ensures Be16(UDP_HEADER[0], UDP_HEADER[1]) == Be16(UDP_HEADER[2], UDP_HEADER[3]) == 5004
    ensures Be16(UDP_HEADER[4], UDP_HEADER[5]) == 44 && UDP_HEADER[6..8] == [0, 0]
  {
  }

  /**
   What a receiver reads at the fixed offsets: the group's Ethernet address and the board's, an IPv4 packet
   of one hop from the board to the group, its length that of the rest of the frame, and a UDP datagram
   between the two ports 5004 without a checksum.
   */
  predicate Carries(f: seq<bv8>, m: Message)
    requires m.Sized() && |f| >= 42
  {
    && f[0..6] == GroupMac(f[30..34]) && f[6..12] == m.mac && f[12..14] == [0x08, 0x00]
    && f[14..16] == [0x45, 0] && Be16(f[16], f[17]) == |f| - 14
    && (Word(f[18]) << 8) | Word(f[19]) == m.xid & 0xFFFF
    && f[20..24] == [0, 0, 1, 17]
    && f[26..30] == m.ip && f[30..34] == [239, 255, 77, 90]
    && Be16(f[34], f[35]) == Be16(f[36], f[37]) == 5004
    && Be16(f[38], f[39]) == |f| - 34 && f[40..42] == [0, 0]
    && f[42..] == Encode(m)
  }

  lemma FrameFields(m: Message)
    requires m.Sized()
    ensures Carries(Frame(m), m)
  {
    var c := Checksum(IpHeader(m));
    var ip := Filled(IpHeader(m), 10, c);
    IpFields(m, c);
    UdpFields();
    Parts(m.mac, ip, UDP_HEADER, Encode(m));
    Inside(Frame(m), ip, UDP_HEADER);
  }

  lemma Inside(f: seq<bv8>, ip: seq<bv8>, udp: seq<bv8>)
    requires |f| == FRAME_SIZE && f[14..34] == ip && f[34..42] == udp
    ensures forall k :: 14 <= k < 34 ==> f[k] == ip[k - 14]
    ensures forall k :: 34 <= k < 42 ==> f[k] == udp[k - 34]
    ensures f[14..16] == ip[0..2] && f[20..24] == ip[6..10] && f[26..30] == ip[12..16] && f[30..34] == ip[16..20]
    ensures f[40..42] == udp[6..8]
  {
  }

  /** A receiver finds a header that checks and the message that was sent. */
  lemma FrameIsReadable(m: Message)
    requires m.Sized() && m.version == VERSION
    ensures Checksum(Frame(m)[14..34]) == 0
    ensures Decode(Frame(m)[HEADERS..]) == Some(m)
  {
    var h := IpHeader(m);
    var c := Checksum(h);
    var ip := Filled(h, 10, c);
    assert Checksum(ip) == 0 by {
      ReChecksToZero(h, 10, c);
    }
    Cuts(GROUP_MAC + m.mac + [0x08, 0x00], ip, UDP_HEADER, Encode(m));
    RoundTrip(m);
  }

  method PutEthernet(frame: array<bv8>, mac: seq<bv8>)
    requires |mac| == 6 && 14 <= frame.Length
    modifies frame
    ensures frame[..] == Written(old(frame[..]), 0, GROUP_MAC + mac + [0x08, 0x00])
  {
    ghost var s := frame[..];
    Copy(frame, 0, GROUP_MAC);
    Copy(frame, 6, mac);
    WriteNext(s, 0, GROUP_MAC, mac);
    Copy(frame, 12, [0x08, 0x00]);
    WriteNext(s, 0, GROUP_MAC + mac, [0x08, 0x00]);
  }

  /** Two groups of four bytes, one behind the other. */
  method PutEight(buf: array<bv8>, at: nat, p: seq<bv8>, q: seq<bv8>)
    requires |p| == 4 && |q| == 4 && at + 8 <= buf.Length
    modifies buf
    ensures buf[..] == Written(old(buf[..]), at, p + q)
  {
    ghost var s := buf[..];
    PutFour(buf, at, p[0], p[1], p[2], p[3]);
    assert p == [p[0], p[1], p[2], p[3]] && q == [q[0], q[1], q[2], q[3]];
    PutFour(buf, at + 4, q[0], q[1], q[2], q[3]);
    WriteNext(s, at, p, q);
  }

  method PutIpHeader(frame: array<bv8>, at: nat, m: Message)
    requires m.Sized() && at + 20 <= frame.Length
    modifies frame
    ensures frame[..] == Written(old(frame[..]), at, IpHeader(m))
  {
    ghost var s := frame[..];
    ghost var id := [Low(m.xid >> 8), Low(m.xid), 0, 0];
    PutEight(frame, at, [0x45, 0, 0, 64], [Low(m.xid >> 8), Low(m.xid), 0, 0]);
    ghost var p := [0x45, 0, 0, 64] + id;
    PutFour(frame, at + 8, 1, 17, 0, 0);
    WriteNext(s, at, p, [1, 17, 0, 0]);
    p := p + [1, 17, 0, 0];
    Copy(frame, at + 12, m.ip);
    WriteNext(s, at, p, m.ip);
    p := p + m.ip;
    Copy(frame, at + 16, GROUP);
    WriteNext(s, at, p, GROUP);
  }

  method PutUdpHeader(frame: array<bv8>, at: nat)
    requires at + 8 <= frame.Length
    modifies frame
    ensures frame[..] == Written(old(frame[..]), at, UDP_HEADER)
  {
    PutEight(frame, at, [0x13, 0x8C, 0x13, 0x8C], [0, 44, 0, 0]);
  }

  lemma FilledInside(s: seq<bv8>, k: nat, p: seq<bv8>, i: nat, w: nat)
    requires k + |p| <= |s| && i + 2 <= |p| && w <= 0xFFFF
    ensures Filled(Written(s, k, p), k + i, w) == Written(s, k, Filled(p, i, w))
  {
  }

  /** The IP header with its checksum. */
  method PutCheckedHeader(frame: array<bv8>, at: nat, m: Message)
    requires m.Sized() && at + 20 <= frame.Length
    modifies frame
    ensures frame[..] == Written(old(frame[..]), at, Filled(IpHeader(m), 10, Checksum(IpHeader(m))))
  {
    ghost var s := frame[..];
    ghost var h := IpHeader(m);
    PutIpHeader(frame, at, m);
    ReadBack(s, at, h, 0, 20);
    assert frame[at..at + 20] == h[0..20] == h;
    assert frame[at + 10] == h[10] && frame[at + 11] == h[11];
    FilledInside(s, at, h, 10, Checksum(h));
    FillChecksum(frame, at, 20, 10);
  }

  lemma AllWritten(s: seq<bv8>, p: seq<bv8>, q: seq<bv8>)
    requires |s| == |p| + |q|
    ensures Written(Written(s, |p|, q), 0, p) == p + q
  {
  }

  method Build(m: Message) returns (frame: array<bv8>)
    requires m.Sized()
    ensures fresh(frame) && frame[..] == Frame(m)
    ensures Carries(frame[..], m)
  {
    FrameFields(m);
    frame := new bv8[FRAME_SIZE](_ => 0);
    ghost var z := frame[..];
    EncodeMessage(frame, HEADERS, m);
    ghost var s := frame[..];
    ghost var p := GROUP_MAC + m.mac + [0x08, 0x00];
    PutEthernet(frame, m.mac);
    ghost var ip := Filled(IpHeader(m), 10, Checksum(IpHeader(m)));
    PutCheckedHeader(frame, 14, m);
    WriteNext(s, 0, p, ip);
    p := p + ip;
    PutUdpHeader(frame, 34);
    WriteNext(s, 0, p, UDP_HEADER);
    AllWritten(z, p + UDP_HEADER, Encode(m));
  }
}
