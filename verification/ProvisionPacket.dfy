/** The firmware's packet routines, on the buffer they fill and read. A C pointer is a buffer and an offset. */
module ProvisionPacket {
  import opened Wrappers
  import opened Crc32
  import opened ProvisionCodec

  /** s with the bytes p written at k. */
  function Written(s: seq<bv8>, k: nat, p: seq<bv8>): (r: seq<bv8>)
    requires k + |p| <= |s|
    ensures |r| == |s|
  {
    s[..k] + p + s[k + |p|..]
  }

  /** memcpy of a value that is not in the buffer. */
  method Copy(buf: array<bv8>, at: nat, p: seq<bv8>)
    requires at + |p| <= buf.Length
    modifies buf
    ensures buf[..] == Written(old(buf[..]), at, p)
  {
    ghost var s := buf[..];
    for i := 0 to |p|
      invariant forall k :: 0 <= k < i ==> buf[at + k] == p[k]
      invariant forall k :: 0 <= k < at ==> buf[k] == s[k]
      invariant forall k :: at + i <= k < buf.Length ==> buf[k] == s[k]
    {
      buf[at + i] := p[i];
    }
    assert forall k :: at <= k < at + |p| ==> buf[k] == p[k - at];
  }

  /** memset to zero. */
  method Clear(buf: array<bv8>, at: nat, n: nat)
    requires at + n <= buf.Length
    modifies buf
    ensures buf[..] == Written(old(buf[..]), at, seq(n, _ => 0))
  {
    ghost var s := buf[..];
    for i := 0 to n
      invariant forall k :: at <= k < at + i ==> buf[k] == 0
      invariant forall k :: 0 <= k < at ==> buf[k] == s[k]
      invariant forall k :: at + i <= k < buf.Length ==> buf[k] == s[k]
    {
      buf[at + i] := 0;
    }
  }

  method PutFour(buf: array<bv8>, at: nat, a: bv8, b: bv8, c: bv8, d: bv8)
    requires at + 4 <= buf.Length
    modifies buf
    ensures buf[..] == Written(old(buf[..]), at, [a, b, c, d])
  {
    buf[at] := a;
    buf[at + 1] := b;
    buf[at + 2] := c;
    buf[at + 3] := d;
  }

  method PutBe32(buf: array<bv8>, at: nat, v: bv32)
    requires at + 4 <= buf.Length
    modifies buf
    ensures buf[..] == Written(old(buf[..]), at, Be32(v))
  {
    PutFour(buf, at, Low(v >> 24), Low(v >> 16), Low(v >> 8), Low(v));
  }

  /** Writing p at k, then q right behind it. */
  lemma WriteNext(s: seq<bv8>, k: nat, p: seq<bv8>, q: seq<bv8>)
    requires k + |p| + |q| <= |s|
    ensures Written(Written(s, k, p), k + |p|, q) == Written(s, k, p + q)
  {
  }

  /** Filling a hole that a cleared area left. */
  lemma KeepZeros(s: seq<bv8>, k: nat, p: seq<bv8>, z: seq<bv8>)
    requires k + |p| + |z| <= |s| && s[k + |p|..k + |p| + |z|] == z
    ensures Written(s, k, p) == Written(s, k, p + z)
  {
  }

  /** The fields in front of the CRC, each behind the last. */
  method PutBody(buf: array<bv8>, at: nat, m: Message)
    requires m.Sized() && at + PACKET_SIZE <= buf.Length && buf[at + 18..at + 20] == PAD
    modifies buf
    ensures buf[..] == Written(old(buf[..]), at, Body(m))
  {
    ghost var z := buf[..];
    PutBe32(buf, at, MAGIC);
    PutFour(buf, at + 4, m.version, m.op, m.status, m.prefix);
    ghost var p := Be32(MAGIC);
    WriteNext(z, at, p, [m.version, m.op, m.status, m.prefix]);
    p := p + [m.version, m.op, m.status, m.prefix];
    PutBe32(buf, at + 8, m.xid);
    WriteNext(z, at, p, Be32(m.xid));
    p := p + Be32(m.xid);
    Copy(buf, at + 12, m.mac);
    WriteNext(z, at, p, m.mac);
    p := p + m.mac;
    KeepZeros(z, at, p, PAD);
    p := p + PAD;
    PutRest(buf, z, at, p, m);
  }

  /** The fields behind the pad bytes. */
  method PutRest(buf: array<bv8>, ghost z: seq<bv8>, at: nat, ghost p: seq<bv8>, m: Message)
    requires m.Sized() && at + PACKET_SIZE <= buf.Length == |z| && |p| == 20 && buf[..] == Written(z, at, p)
    modifies buf
    ensures buf[..] == Written(z, at, p + m.ip + m.gateway + Be32(m.token))
  {
    Copy(buf, at + 20, m.ip);
    WriteNext(z, at, p, m.ip);
    Copy(buf, at + 24, m.gateway);
    WriteNext(z, at, p + m.ip, m.gateway);
    PutBe32(buf, at + 28, m.token);
    WriteNext(z, at, p + m.ip + m.gateway, Be32(m.token));
  }

  lemma Covered(s: seq<bv8>, k: nat, z: seq<bv8>, p: seq<bv8>)
    requires |z| == |p| && k + |p| <= |s|
    ensures Written(Written(s, k, z), k, p) == Written(s, k, p)
  {
  }

  lemma ReadBack(s: seq<bv8>, k: nat, p: seq<bv8>, i: nat, j: nat)
    requires k + |p| <= |s| && i <= j <= |p|
    ensures Written(s, k, p)[k + i..k + j] == p[i..j]
  {
  }

  method EncodeMessage(buf: array<bv8>, at: nat, m: Message)
    requires m.Sized() && at + PACKET_SIZE <= buf.Length
    modifies buf
    ensures buf[..] == Written(old(buf[..]), at, Encode(m))
  {
    ghost var s := buf[..];
    ghost var zeros: seq<bv8> := seq(PACKET_SIZE, _ => 0);
    Clear(buf, at, PACKET_SIZE);
    ReadBack(s, at, zeros, 18, 20);
    assert zeros[18..20] == PAD;
    ghost var z := buf[..];
    PutBody(buf, at, m);
    ReadBack(z, at, Body(m), 0, CRC_OFFSET);
    assert buf[at..at + CRC_OFFSET] == Body(m)[0..CRC_OFFSET] == Body(m);
    PutBe32(buf, at + CRC_OFFSET, Crc(buf[at..at + CRC_OFFSET]));
    WriteNext(z, at, Body(m), Be32(Crc(Body(m))));
    Covered(s, at, zeros, Encode(m));
  }

  method DecodeMessage(buf: array<bv8>, len: nat) returns (m: Option<Message>)
    requires len <= buf.Length
    ensures m == Decode(buf[..len])
  {
    if len != PACKET_SIZE || FromBe32(buf[0..4]) != MAGIC || buf[4] != VERSION
       || FromBe32(buf[32..36]) != Crc(buf[0..32])
    {
      ghost var d := buf[..len];
      assert len == PACKET_SIZE ==> d[0..4] == buf[0..4] && d[32..36] == buf[32..36] && d[..32] == buf[0..32];
      return None;
    }
    ghost var d := buf[..len];
    assert d[0..4] == buf[0..4] && d[32..36] == buf[32..36] && d[..32] == buf[0..32];
    assert d[8..12] == buf[8..12] && d[12..18] == buf[12..18] && d[20..24] == buf[20..24];
    assert d[24..28] == buf[24..28] && d[28..32] == buf[28..32];
    m := Some(Message(buf[4], buf[5], buf[6], buf[7], FromBe32(buf[8..12]), buf[12..18], buf[20..24], buf[24..28],
                      FromBe32(buf[28..32])));
  }
}
