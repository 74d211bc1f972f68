/** The 36-byte provisioning packet: the firmware's encoder and decoder, and the host's. */
module ProvisionCodec {
  import opened Wrappers
  import opened Crc32

  const MAGIC: bv32 := 0x455A4346
  const VERSION: bv8 := 1
  const PACKET_SIZE := 36
  const CRC_OFFSET := 32
  const PAD: seq<bv8> := [0, 0]

  datatype Message = Message(version: bv8, op: bv8, status: bv8, prefix: bv8, xid: bv32,
                             mac: seq<bv8>, ip: seq<bv8>, gateway: seq<bv8>, token: bv32) {
    /** The C struct has arrays of these sizes. */
    predicate Sized() {
      |mac| == 6 && |ip| == 4 && |gateway| == 4
    }
  }

  // ---- Big-endian words ----

  function Low(v: bv32): bv8 {
    (v & 0xFF) as bv8
  }

  function Be32(v: bv32): (s: seq<bv8>)
    ensures |s| == 4
  {
    [Low(v >> 24), Low(v >> 16), Low(v >> 8), Low(v)]
  }

  function FromBe32(s: seq<bv8>): bv32
    requires |s| == 4
  {
    (Word(s[0]) << 24) | (Word(s[1]) << 16) | (Word(s[2]) << 8) | Word(s[3])
  }

  lemma Bytes(v: bv32)
    ensures (Word(Low(v >> 24)) << 24) | (Word(Low(v >> 16)) << 16) | (Word(Low(v >> 8)) << 8) | Word(Low(v)) == v
  {
  }

  lemma Be32Inverse(v: bv32)
    ensures FromBe32(Be32(v)) == v
  {
    Bytes(v);
  }

  lemma LowOfWord(a: bv8, b: bv8, c: bv8, d: bv8)
    ensures var v := (Word(a) << 24) | (Word(b) << 16) | (Word(c) << 8) | Word(d);
            Low(v >> 24) == a && Low(v >> 16) == b && Low(v >> 8) == c && Low(v) == d
  {
  }

  lemma FromBe32Inverse(s: seq<bv8>)
    requires |s| == 4
    ensures Be32(FromBe32(s)) == s
  {
    LowOfWord(s[0], s[1], s[2], s[3]);
  }

  // ---- The packet ----

  /** The bytes the CRC covers. */
  function Body(m: Message): (b: seq<bv8>)
    requires m.Sized()
    ensures |b| == CRC_OFFSET
  {
    Be32(MAGIC) + [m.version, m.op, m.status, m.prefix] + Be32(m.xid) + m.mac + PAD + m.ip + m.gateway
    + Be32(m.token)
  }

  function Encode(m: Message): (b: seq<bv8>)
    requires m.Sized()
    ensures |b| == PACKET_SIZE
  {
    Body(m) + Be32(Crc(Body(m)))
  }

  function Fields(d: seq<bv8>): Message
    requires |d| == PACKET_SIZE
  {
    Message(d[4], d[5], d[6], d[7], FromBe32(d[8..12]), d[12..18], d[20..24], d[24..28], FromBe32(d[28..32]))
  }

  predicate Intact(d: seq<bv8>) {
    |d| == PACKET_SIZE && FromBe32(d[0..4]) == MAGIC && d[4] == VERSION && FromBe32(d[32..36]) == Crc(d[..32])
  }

  function Decode(d: seq<bv8>): (m: Option<Message>)
    ensures m.Some? ==> m.value.Sized()
  {
    if Intact(d) then Some(Fields(d)) else None
  }

  lemma BodyParts(m: Message)
    requires m.Sized()
    ensures var b := Body(m);
            && b[0..4] == Be32(MAGIC) && b[4] == m.version && b[5] == m.op && b[6] == m.status && b[7] == m.prefix
            && b[8..12] == Be32(m.xid) && b[12..18] == m.mac && b[18..20] == PAD && b[20..24] == m.ip
            && b[24..28] == m.gateway && b[28..32] == Be32(m.token)
  {
  }

  lemma PacketParts(b: seq<bv8>, c: seq<bv8>)
    requires |b| == CRC_OFFSET && |c| == 4
    ensures (b + c)[..32] == b && (b + c)[32..36] == c
    ensures forall i, j :: 0 <= i <= j <= CRC_OFFSET ==> (b + c)[i..j] == b[i..j]
  {
  }

  /** Decoding undoes encoding, for every message of this version; no other version is accepted. */
  lemma RoundTrip(m: Message)
    requires m.Sized()
    ensures Decode(Encode(m)) == if m.version == VERSION then Some(m) else None
  {
    BodyParts(m);
    PacketParts(Body(m), Be32(Crc(Body(m))));
    Be32Inverse(MAGIC);
    Be32Inverse(m.xid);
    Be32Inverse(m.token);
    Be32Inverse(Crc(Body(m)));
  }

  /** Encoding undoes decoding, except for the two pad bytes, which are not read. */
  lemma DecodeThenEncode(d: seq<bv8>)
    requires Decode(d).Some? && d[18..20] == PAD
    ensures Encode(Decode(d).value) == d
  {
    FromBe32Inverse(d[0..4]);
    FromBe32Inverse(d[8..12]);
    FromBe32Inverse(d[28..32]);
    FromBe32Inverse(d[32..36]);
    assert d[4..8] == [d[4], d[5], d[6], d[7]];
    Assembled(d);
  }

  lemma Assembled(d: seq<bv8>)
    requires |d| == PACKET_SIZE
    ensures d[0..4] + d[4..8] + d[8..12] + d[12..18] + d[18..20] + d[20..24] + d[24..28] + d[28..32] == d[..32]
    ensures d[..32] + d[32..36] == d
  {
  }

  // ---- What a corrupted packet does ----

  /** Any change confined to four consecutive bytes of the body is rejected. */
  lemma BodyBurstRejected(d: seq<bv8>, e: seq<bv8>, k: nat)
    requires Intact(d) && k + 4 <= CRC_OFFSET && |e| == |d| && e != d
    requires e[..k] == d[..k] && e[k + 4..] == d[k + 4..]
    ensures Decode(e) == None
  {
    var p, q := d[k..k + 4], e[k..k + 4];
    assert d[..32] == d[..k] + p + d[k + 4..32] && e[..32] == e[..k] + q + e[k + 4..32];
    assert d == d[..k] + p + d[k + 4..] && e == e[..k] + q + e[k + 4..];
    assert e[k + 4..32] == e[k + 4..][..28 - k] && d[k + 4..32] == d[k + 4..][..28 - k];
    assert e[32..36] == e[k + 4..][28 - k..] && d[32..36] == d[k + 4..][28 - k..];
    BurstDetected(d[..k], p, q, d[k + 4..32]);
  }

  /** Any change to the CRC field alone is rejected. */
  lemma CrcChangeRejected(d: seq<bv8>, e: seq<bv8>)
    requires Intact(d) && |e| == |d| && e != d && e[..CRC_OFFSET] == d[..CRC_OFFSET]
    ensures Decode(e) == None
  {
    FromBe32Inverse(d[32..36]);
    FromBe32Inverse(e[32..36]);
    assert d == d[..32] + d[32..36] && e == e[..32] + e[32..36];
  }

  // ---- The layout ----

  lemma MagicBytes()
    ensures Be32(MAGIC) == [0x45, 0x5A, 0x43, 0x46]
  {
  }

  /** What a receiver finds at the fixed offsets; the packet begins with "EZCF". */
  lemma PacketFields(m: Message)
    requires m.Sized()
    ensures var d := Encode(m);
            && d[0..4] == [0x45, 0x5A, 0x43, 0x46] && d[4..8] == [m.version, m.op, m.status, m.prefix]
            && FromBe32(d[8..12]) == m.xid && d[12..18] == m.mac && d[18..20] == [0, 0]
            && d[20..24] == m.ip && d[24..28] == m.gateway && FromBe32(d[28..32]) == m.token
            && FromBe32(d[32..36]) == Crc(d[0..32])
  {
    var b := Body(m);
    BodyParts(m);
    PacketParts(b, Be32(Crc(b)));
    MagicBytes();
    Be32Inverse(m.xid);
    Be32Inverse(m.token);
    Be32Inverse(Crc(b));
    assert b[4..8] == [b[4], b[5], b[6], b[7]];
    assert b[0..32] == b;
  }
}
