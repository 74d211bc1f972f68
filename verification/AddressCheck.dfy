/** The address check written twice: with masks on the board, with address intervals on the host. */
module AddressCheck {
  import opened Modular
  import opened Bits

  /** The board's check; addresses are 32-bit words and the prefix is a byte. */
  predicate Usable(ip: nat, prefix: nat, gw: nat)
    requires ip < WORD && gw < WORD
  {
    if prefix == 0 || prefix > 30 || ip == 0 || ip == WORD - 1
       || And(ip, 0xF000_0000) == 0xE000_0000 || And(ip, 0xFF00_0000) == 0x7F00_0000 then false
    else
      var mask := Shl(WORD - 1, 32 - prefix);
      var net, low := And(ip, mask), Not(mask);
      var host := And(ip, low);
      if host == 0 || host == low then false
      else !(gw != 0 && (And(gw, mask) != net || gw == ip || gw == net || gw == Or(net, low)))
  }

  /** The addresses of a network, ip's among them. */
  function NetworkSize(prefix: nat): nat
    requires prefix <= 32
  {
    Pow2(32 - prefix)
  }

  function NetworkAddress(ip: nat, prefix: nat): int
    requires prefix <= 32
  {
    ip / NetworkSize(prefix) * NetworkSize(prefix)
  }

  function BroadcastAddress(ip: nat, prefix: nat): int
    requires prefix <= 32
  {
    NetworkAddress(ip, prefix) + NetworkSize(prefix) - 1
  }

  predicate Multicast(ip: nat) {
    0xE000_0000 <= ip <= 0xEFFF_FFFF
  }

  predicate Loopback(ip: nat) {
    0x7F00_0000 <= ip <= 0x7FFF_FFFF
  }

  /** The host's check. */
  predicate Valid(ip: nat, prefix: int, gw: nat) {
    1 <= prefix <= 30 &&
    var net, top := NetworkAddress(ip, prefix), BroadcastAddress(ip, prefix);
    && !(Multicast(ip) || ip == 0 || Loopback(ip) || ip == net || ip == top)
    && !(gw != 0 && (!(net <= gw <= top) || gw == ip || gw == net || gw == top))
  }

  lemma AtLeastTwice(q: nat, p: nat)
    requires q >= 2
    ensures q * p >= 2 * p
  {
  }

  /** The netmask of a prefix in arithmetic; a longer prefix than an address has none. */
  function Netmask(prefix: nat): int {
    if prefix <= 32 then WORD - NetworkSize(prefix) else 0
  }

  /** The mask of a prefix. */
  lemma MaskIs(prefix: nat)
    requires 1 <= prefix <= 32
    ensures Pow2(32 - prefix) < WORD
    ensures Shl(WORD - 1, 32 - prefix) == WORD - Pow2(32 - prefix) == Netmask(prefix)
  {
    Word32();
    var k, p := 32 - prefix, Pow2(32 - prefix);
    Pow2Add(prefix, k);
    AtLeastTwice(Pow2(prefix), p);
    assert (WORD - 1) * p == (p - 1) * WORD + (WORD - p);
    ModUnique((WORD - 1) * p, p - 1, WORD - p, WORD);
  }

  lemma HighBits(ip: nat, k: nat)
    requires ip < WORD && k <= 32
    ensures Pow2(k) <= WORD && And(ip, WORD - Pow2(k)) == ip - ip % Pow2(k)
  {
    Word32();
    assert (32 - k) + k == 32;
    AndHigh(ip, 32 - k, k);
  }

  /** What a netmask is for: it takes an address to its network. Prefix 24 has the mask 255.255.255.0. */
  lemma NetmaskTells(ip: nat, prefix: nat)
    requires ip < WORD && prefix <= 32
    ensures 0 <= Netmask(prefix) < WORD && And(ip, Netmask(prefix)) == NetworkAddress(ip, prefix)
    ensures Netmask(24) == 0xFFFF_FF00 && Netmask(16) == 0xFFFF_0000
  {
    HighBits(ip, 32 - prefix);
    Floor(ip, Pow2(32 - prefix));
    Word32();
    Word16();
  }

  lemma Floor(ip: nat, p: nat)
    requires 0 < p
    ensures ip - ip % p == ip / p * p
  {
  }

  /** An address is in the block of size p at net exactly when it rounds down to net. */
  lemma Block(gw: nat, ip: nat, p: nat)
    requires 0 < p
    ensures gw - gw % p == ip - ip % p <==> ip - ip % p <= gw <= ip - ip % p + p - 1
  {
    var net := ip - ip % p;
    assert net == ip / p * p;
    if net <= gw <= net + p - 1 {
      ModUnique(gw, ip / p, gw - net, p);
    }
  }

  lemma Classes(ip: nat)
    requires ip < WORD
    ensures And(ip, 0xF000_0000) == 0xE000_0000 <==> Multicast(ip)
    ensures And(ip, 0xFF00_0000) == 0x7F00_0000 <==> Loopback(ip)
  {
    Word32();
    HighBits(ip, 28);
    HighBits(ip, 24);
    assert ip - ip % 0x1000_0000 == 0xE000_0000 <==> Multicast(ip);
    assert ip - ip % 0x100_0000 == 0x7F00_0000 <==> Loopback(ip);
  }

  /** net | ~mask is the last address of the block. */
  lemma OrLow(net: nat, k: nat)
    requires net < WORD && k <= 32 && net % Pow2(k) == 0
    ensures Or(net, Pow2(k) - 1) == net + Pow2(k) - 1
  {
    AndOrSum(net, Pow2(k) - 1);
    AndLow(net, k);
  }

  /** The board's check in arithmetic, for a block of p addresses. */
  predicate InBlock(ip: nat, gw: nat, p: nat)
    requires 0 < p
  {
    var net, host := ip - ip % p, ip % p;
    && ip != 0 && ip != WORD - 1 && !Multicast(ip) && !Loopback(ip) && host != 0 && host != p - 1
    && (gw == 0 || (gw - gw % p == net && gw != ip && gw != net && gw != net + p - 1))
  }

  /** The masked parts of an address. */
  lemma MaskedParts(ip: nat, prefix: nat)
    requires ip < WORD && 1 <= prefix <= 30
    ensures var p, mask := Pow2(32 - prefix), Shl(WORD - 1, 32 - prefix);
            && Not(mask) == p - 1 >= 0
            && And(ip, mask) == ip - ip % p >= 0
            && And(ip, p - 1) == ip % p
            && Or(ip - ip % p, p - 1) == ip - ip % p + p - 1
  {
    var k := 32 - prefix;
    var p := Pow2(k);
    MaskIs(prefix);
    HighBits(ip, k);
    AndLow(ip, k);
    Floor(ip, p);
    ModUnique(ip - ip % p, ip / p, 0, p);
    OrLow(ip - ip % p, k);
  }

  lemma BoardCheck(ip: nat, prefix: nat, gw: nat)
    requires ip < WORD && gw < WORD && 1 <= prefix <= 30
    ensures Usable(ip, prefix, gw) <==> InBlock(ip, gw, Pow2(32 - prefix))
  {
    Classes(ip);
    MaskedParts(ip, prefix);
    MaskedParts(gw, prefix);
  }

  /** 255.255.255.255 ends its block, whatever the prefix. */
  lemma LastAddress(prefix: nat)
    requires 1 <= prefix <= 30
    ensures (WORD - 1) % Pow2(32 - prefix) == Pow2(32 - prefix) - 1
  {
    var p, q := Pow2(32 - prefix), Pow2(prefix);
    Word32();
    Pow2Add(prefix, 32 - prefix);
    Predecessor(q, p);
  }

  lemma Predecessor(q: nat, p: nat)
    requires 0 < q && 0 < p
    ensures (q * p - 1) % p == p - 1
  {
    assert q * p - 1 == (q - 1) * p + (p - 1);
    ModUnique(q * p - 1, q - 1, p - 1, p);
  }

  /** The two checks accept the same addresses: masks and intervals agree on every input the board can get. */
  lemma SameCheck(ip: nat, prefix: nat, gw: nat)
    requires ip < WORD && gw < WORD
    ensures Usable(ip, prefix, gw) <==> Valid(ip, prefix, gw)
  {
    if 1 <= prefix <= 30 {
      BoardCheck(ip, prefix, gw);
      var p := Pow2(32 - prefix);
      Floor(ip, p);
      Block(gw, ip, p);
      LastAddress(prefix);
    }
  }
}
