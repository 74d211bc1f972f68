/** The host script's encoder and decoder of the provisioning packet, and its agreement with the firmware's. */
module HostCodec {
  import opened BigEndian
  import opened Wrappers
  import opened Crc32
  import opened ProvisionCodec

  datatype Error = BadMac | BadField | BadSize | BadIdentity | BadCrc

  datatype Result<T> = Ok(value: T) | Err(error: Error)

  /** The script's message: integers of any size, and byte strings. */
  datatype HostMessage = HostMessage(op: int, status: int, prefix: int, xid: int, mac: seq<bv8>,
                                     ip: seq<bv8>, gateway: seq<bv8>, token: int) {
    /** Packed IPv4 addresses have four bytes. */
    predicate Sized() {
      |ip| == 4 && |gateway| == 4
    }
  }

  /** struct.pack in network byte order; it refuses integers that do not fit their field. */
  function Pack(magic: bv32, version: int, m: HostMessage, crc: bv32): (r: Result<seq<bv8>>)
    requires |m.mac| == 6 && m.Sized()
    ensures r.Ok? ==> |r.value| == PACKET_SIZE
  {
    if !(Byte(version) && Byte(m.op) && Byte(m.status) && Byte(m.prefix) && Word32(m.xid) && Word32(m.token)) then
      Err(BadField)
    else
      Ok(Be32(magic) + [version as bv8] + [m.op as bv8] + [m.status as bv8] + [m.prefix as bv8] + ToBytes(m.xid)
         + m.mac + PAD + m.ip + m.gateway + ToBytes(m.token) + Be32(crc))
  }

  function HostEncode(m: HostMessage): Result<seq<bv8>>
    requires m.Sized()
  {
    if |m.mac| != 6 then Err(BadMac)
    else
      match Pack(MAGIC, 1, m, 0)
      case Err(e) => Err(e)
      case Ok(packet) => Ok(packet[..CRC_OFFSET] + Be32(Crc(packet[..CRC_OFFSET])))
  }

  function HostDecode(d: seq<bv8>): (r: Result<HostMessage>)
    ensures r.Ok? ==> r.value.Sized()
  {
    if |d| != PACKET_SIZE then Err(BadSize)
    else if FromBe32(d[0..4]) != MAGIC || d[4] as int != 1 then Err(BadIdentity)
    else if FromBe32(d[32..36]) != Crc(d[..CRC_OFFSET]) then Err(BadCrc)
    else Ok(HostMessage(d[5] as int, d[6] as int, d[7] as int, FromBytes(d[8..12]), d[12..18], d[20..24],
                        d[24..28], FromBytes(d[28..32])))
  }

  /** The fields the script sends, as the firmware holds them: words are told by their bytes. */
  function OnBoard(m: HostMessage): Message
    requires Byte(m.op) && Byte(m.status) && Byte(m.prefix) && Word32(m.xid) && Word32(m.token)
  {
    Message(VERSION, m.op as bv8, m.status as bv8, m.prefix as bv8, FromBe32(ToBytes(m.xid)), m.mac, m.ip, m.gateway,
            FromBe32(ToBytes(m.token)))
  }

  predicate Fits(m: HostMessage) {
    |m.mac| == 6 && Byte(m.op) && Byte(m.status) && Byte(m.prefix) && Word32(m.xid) && Word32(m.token)
  }

  lemma HostBody(m: HostMessage)
    requires m.Sized() && Fits(m)
    ensures Pack(MAGIC, 1, m, 0).Ok? && Pack(MAGIC, 1, m, 0).value == Body(OnBoard(m)) + Be32(0)
  {
    FromBe32Inverse(ToBytes(m.xid));
    FromBe32Inverse(ToBytes(m.token));
    var b := OnBoard(m);
    var h := Be32(MAGIC);
    assert h + [b.version] + [b.op] + [b.status] + [b.prefix] == h + [b.version, b.op, b.status, b.prefix];
  }

  /** Where the script encodes at all, it sends the bytes the firmware would. */
  lemma SameBytes(m: HostMessage)
    requires m.Sized()
    ensures HostEncode(m).Ok? <==> Fits(m)
    ensures Fits(m) ==> HostEncode(m).value == Encode(OnBoard(m))
  {
    if Fits(m) {
      HostBody(m);
      PacketParts(Body(OnBoard(m)), Be32(0));
    }
  }

  lemma Casts(b: bv8)
    ensures Byte(b as int) && (b as int) as bv8 == b
    ensures b as int == 1 <==> b == VERSION
  {
  }

  /** Both decoders accept the same packets and read the same fields from them. */
  lemma SameFields(d: seq<bv8>)
    ensures HostDecode(d).Ok? <==> Decode(d).Some?
    ensures HostDecode(d).Ok? ==> Fits(HostDecode(d).value) && Some(OnBoard(HostDecode(d).value)) == Decode(d)
  {
    if |d| == PACKET_SIZE {
      Casts(d[4]);
      Casts(d[5]);
      Casts(d[6]);
      Casts(d[7]);
      FromToBytes(d[8..12]);
      FromToBytes(d[28..32]);
    }
  }

  lemma SameOnBoard(m: HostMessage, h: HostMessage)
    requires Fits(m) && Fits(h) && OnBoard(m) == OnBoard(h)
    ensures m == h
  {
    ByteCast(m.op);
    ByteCast(m.status);
    ByteCast(m.prefix);
    ByteCast(h.op);
    ByteCast(h.status);
    ByteCast(h.prefix);
    FromBe32Inverse(ToBytes(m.xid));
    FromBe32Inverse(ToBytes(h.xid));
    ToFromBytes(m.xid);
    ToFromBytes(h.xid);
    FromBe32Inverse(ToBytes(m.token));
    FromBe32Inverse(ToBytes(h.token));
    ToFromBytes(m.token);
    ToFromBytes(h.token);
  }

  /** What the script sends reads back on both sides, field for field. */
  lemma HostRoundTrip(m: HostMessage)
    requires m.Sized() && Fits(m)
    ensures HostEncode(m).Ok? && HostDecode(HostEncode(m).value) == Ok(m)
    ensures Decode(HostEncode(m).value) == Some(OnBoard(m))
  {
    SameBytes(m);
    RoundTrip(OnBoard(m));
    SameFields(Encode(OnBoard(m)));
    SameOnBoard(m, HostDecode(HostEncode(m).value).value);
  }

  /** Each error of the script has its one cause, and the size is looked at first, the CRC last. */
  lemma HostErrors(d: seq<bv8>, m: HostMessage)
    requires m.Sized()
    ensures HostDecode(d) == Err(BadSize) <==> |d| != 36
    ensures HostDecode(d) == Err(BadIdentity) <==> |d| == 36 && d[0..5] != [0x45, 0x5A, 0x43, 0x46, 1]
    ensures HostDecode(d) == Err(BadCrc) <==>
            |d| == 36 && d[0..5] == [0x45, 0x5A, 0x43, 0x46, 1] && FromBe32(d[32..36]) != Crc(d[0..32])
    ensures HostEncode(m) == Err(BadMac) <==> |m.mac| != 6
    ensures HostEncode(m) == Err(BadField) <==> |m.mac| == 6 && !Fits(m)
  {
  }
}
