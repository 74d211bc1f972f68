/** The CRC-32 of section 3.2.9 of IEEE Std 802.3, least significant bit first, and the bursts it detects. */
module Crc32 {

  const POLYNOMIAL: bv32 := 0xEDB88320

  /** One bit through the shift register. */
  function Shift(c: bv32): bv32 {
    if c & 1 == 1 then (c >> 1) ^ POLYNOMIAL else c >> 1
  }

  function Word(b: bv8): bv32 {
    b as bv32
  }

  function Twice(f: bv32 -> bv32, c: bv32): bv32 {
    f(f(c))
  }

  function Eight(f: bv32 -> bv32, c: bv32): bv32 {
    Twice(f, Twice(f, Twice(f, Twice(f, c))))
  }

  function Shift8(c: bv32): bv32 {
    Eight(Shift, c)
  }

  /** One byte into the register; f is the eight shifts. */
  function Feed(f: bv32 -> bv32, c: bv32, b: bv8): bv32 {
    f(c ^ Word(b))
  }

  /** The register after the bytes of p. */
  function Feeds(f: bv32 -> bv32, c: bv32, p: seq<bv8>): bv32
    decreases |p|
  {
    if p == [] then c else Feeds(f, Feed(f, c, p[0]), p[1..])
  }

  function Crc(data: seq<bv8>): bv32 {
    Feeds(Shift8, 0xFFFF_FFFF, data) ^ 0xFFFF_FFFF
  }

  // ---- Running the register backwards ----

  /** x and y agree in the bits of m. */
  predicate Agree(x: bv32, y: bv32, m: bv32) {
    x & m == y & m
  }

  /** The bits known before a step, from those known after it. */
  function Before(m: bv32): bv32 {
    (m << 1) | 1
  }

  predicate BackAt(f: bv32 -> bv32, x: bv32, y: bv32, m: bv32) {
    m & 0x8000_0000 != 0 && Agree(f(x), f(y), m) ==> Agree(x, y, Before(m))
  }

  ghost predicate Reversible(f: bv32 -> bv32) {
    forall x, y, m :: BackAt(f, x, y, m)
  }

  /** The top bit tells whether the polynomial went in, that is, the bit that was shifted out. */
  lemma ShiftBack(x: bv32, y: bv32, m: bv32)
    ensures BackAt(Shift, x, y, m)
  {
  }

  lemma TwiceBack(f: bv32 -> bv32, x: bv32, y: bv32, m: bv32)
    requires Reversible(f) && m & 0xC000_0000 == 0xC000_0000 && Agree(Twice(f, x), Twice(f, y), m)
    ensures Agree(x, y, Before(Before(m)))
  {
    assert BackAt(f, f(x), f(y), m);
    assert BackAt(f, x, y, Before(m));
  }

  function Before8(m: bv32): bv32 {
    (m << 8) | 0xFF
  }

  lemma Masks(m: bv32)
    requires m & 0xFF00_0000 == 0xFF00_0000
    ensures Before(Before(m)) & 0xFC00_0000 == 0xFC00_0000
    ensures Before(Before(Before(Before(m)))) & 0xF000_0000 == 0xF000_0000
    ensures Before(Before(Before(Before(Before(Before(m)))))) & 0xC000_0000 == 0xC000_0000
  {
  }

  lemma EightBefore(m: bv32)
    ensures Before(Before(Before(Before(Before(Before(Before(Before(m)))))))) == Before8(m)
  {
  }

  lemma EightBack(f: bv32 -> bv32, x: bv32, y: bv32, m: bv32)
    requires Reversible(f) && m & 0xFF00_0000 == 0xFF00_0000 && Agree(Eight(f, x), Eight(f, y), m)
    ensures Agree(x, y, Before8(m))
  {
    var x2, y2 := Twice(f, x), Twice(f, y);
    var x4, y4 := Twice(f, x2), Twice(f, y2);
    var x6, y6 := Twice(f, x4), Twice(f, y4);
    Masks(m);
    EightBefore(m);
    TwiceBack(f, x6, y6, m);
    TwiceBack(f, x4, y4, Before(Before(m)));
    TwiceBack(f, x2, y2, Before(Before(Before(Before(m)))));
    TwiceBack(f, x, y, Before(Before(Before(Before(Before(Before(m)))))));
  }

  /** A byte only touches the low bits. */
  lemma WordLow(c: bv32, b: bv8, d: bv32, e: bv8, m: bv32)
    requires Agree(c ^ Word(b), d ^ Word(e), Before8(m))
    ensures Agree(c, d, m << 8)
  {
  }

  lemma WordSame(c: bv32, b: bv8, e: bv8, m: bv32)
    requires Agree(c ^ Word(b), c ^ Word(e), Before8(m))
    ensures b == e
  {
  }

  // ---- Bytes ----

  predicate Back8At(f: bv32 -> bv32, x: bv32, y: bv32, m: bv32) {
    m & 0xFF00_0000 == 0xFF00_0000 && Agree(f(x), f(y), m) ==> Agree(x, y, Before8(m))
  }

  ghost predicate Reversible8(f: bv32 -> bv32) {
    forall x, y, m :: Back8At(f, x, y, m)
  }

  lemma Shift8Reversible()
    ensures Reversible8(Shift8)
  {
    forall x, y, m ensures BackAt(Shift, x, y, m) {
      ShiftBack(x, y, m);
    }
    forall x, y, m ensures Back8At(Shift8, x, y, m) {
      if m & 0xFF00_0000 == 0xFF00_0000 && Agree(Shift8(x), Shift8(y), m) {
        EightBack(Shift, x, y, m);
      }
    }
  }

  lemma Feed8Back(f: bv32 -> bv32, x: bv32, y: bv32, m: bv32)
    requires Reversible8(f) && m & 0xFF00_0000 == 0xFF00_0000 && Agree(f(x), f(y), m)
    ensures Agree(x, y, Before8(m))
  {
    assert Back8At(f, x, y, m);
  }

  lemma FeedBack(f: bv32 -> bv32, c: bv32, b: bv8, d: bv32, e: bv8, m: bv32)
    requires Reversible8(f) && m & 0xFF00_0000 == 0xFF00_0000 && Agree(Feed(f, c, b), Feed(f, d, e), m)
    ensures Agree(c, d, m << 8)
  {
    Feed8Back(f, c ^ Word(b), d ^ Word(e), m);
    WordLow(c, b, d, e, m);
  }

  lemma FeedSame(f: bv32 -> bv32, c: bv32, b: bv8, e: bv8, m: bv32)
    requires Reversible8(f) && m & 0xFF00_0000 == 0xFF00_0000 && Agree(Feed(f, c, b), Feed(f, c, e), m)
    ensures b == e
  {
    Feed8Back(f, c ^ Word(b), c ^ Word(e), m);
    WordSame(c, b, e, m);
  }

  /** The bits known to agree before k more bytes, once all agree after them. */
  function KnownBefore(k: nat): bv32
    requires k <= 3
  {
    if k == 0 then 0xFFFF_FFFF else if k == 1 then 0xFFFF_FF00 else if k == 2 then 0xFFFF_0000 else 0xFF00_0000
  }

  lemma {:induction false} FeedsBack(f: bv32 -> bv32, c: bv32, p: seq<bv8>, d: bv32, q: seq<bv8>)
    requires Reversible8(f) && |p| == |q| <= 3 && Feeds(f, c, p) == Feeds(f, d, q)
    ensures Agree(c, d, KnownBefore(|p|))
    decreases |p|
  {
    if p == [] {
    } else {
      FeedsBack(f, Feed(f, c, p[0]), p[1..], Feed(f, d, q[0]), q[1..]);
      FeedBack(f, c, p[0], d, q[0], KnownBefore(|p| - 1));
    }
  }

  /** Equal registers after at most four bytes fed from equal registers: equal bytes. */
  lemma {:induction false} FeedsInjective(f: bv32 -> bv32, c: bv32, p: seq<bv8>, q: seq<bv8>)
    requires Reversible8(f) && |p| == |q| <= 4 && Feeds(f, c, p) == Feeds(f, c, q)
    ensures p == q
    decreases |p|
  {
    if p == [] {
    } else {
      FeedsBack(f, Feed(f, c, p[0]), p[1..], Feed(f, c, q[0]), q[1..]);
      FeedSame(f, c, p[0], q[0], KnownBefore(|p| - 1));
      FeedsInjective(f, Feed(f, c, p[0]), p[1..], q[1..]);
      assert p == [p[0]] + p[1..] && q == [q[0]] + q[1..];
    }
  }

  lemma SameByte(c: bv32, d: bv32, b: bv8)
    requires Agree(c ^ Word(b), d ^ Word(b), Before8(0xFFFF_FFFF))
    ensures c == d
  {
  }

  lemma FeedApart(f: bv32 -> bv32, c: bv32, d: bv32, b: bv8)
    requires Reversible8(f) && Feed(f, c, b) == Feed(f, d, b)
    ensures c == d
  {
    Feed8Back(f, c ^ Word(b), d ^ Word(b), 0xFFFF_FFFF);
    SameByte(c, d, b);
  }

  /** The same bytes never bring two different registers together. */
  lemma {:induction false} FeedsKeepApart(f: bv32 -> bv32, c: bv32, d: bv32, p: seq<bv8>)
    requires Reversible8(f) && Feeds(f, c, p) == Feeds(f, d, p)
    ensures c == d
    decreases |p|
  {
    if p == [] {
    } else {
      FeedsKeepApart(f, Feed(f, c, p[0]), Feed(f, d, p[0]), p[1..]);
      FeedApart(f, c, d, p[0]);
    }
  }

  lemma {:induction false} FeedsAppend(f: bv32 -> bv32, c: bv32, p: seq<bv8>, q: seq<bv8>)
    ensures Feeds(f, c, p + q) == Feeds(f, Feeds(f, c, p), q)
    decreases |p|
  {
    if p == [] {
      assert p + q == q;
    } else {
      assert (p + q)[1..] == p[1..] + q;
      FeedsAppend(f, Feed(f, c, p[0]), p[1..], q);
    }
  }

  lemma Complement(x: bv32, y: bv32)
    ensures x ^ 0xFFFF_FFFF == y ^ 0xFFFF_FFFF ==> x == y
  {
  }

  /** Registers that differ by at most four bytes in the middle end apart. */
  lemma RegistersApart(f: bv32 -> bv32, c: bv32, before: seq<bv8>, p: seq<bv8>, q: seq<bv8>, after: seq<bv8>)
    requires Reversible8(f) && |p| == |q| <= 4 && p != q
    ensures Feeds(f, c, before + p + after) != Feeds(f, c, before + q + after)
  {
    var d := Feeds(f, c, before);
    FeedsAppend(f, c, before, p);
    FeedsAppend(f, c, before, q);
    FeedsAppend(f, c, before + p, after);
    FeedsAppend(f, c, before + q, after);
    if Feeds(f, c, before + p + after) == Feeds(f, c, before + q + after) {
      FeedsKeepApart(f, Feeds(f, d, p), Feeds(f, d, q), after);
      FeedsInjective(f, d, p, q);
    }
  }

  /** Changing at most four consecutive bytes of any message changes its CRC. */
  lemma BurstDetected(before: seq<bv8>, p: seq<bv8>, q: seq<bv8>, after: seq<bv8>)
    requires |p| == |q| <= 4 && p != q
    ensures Crc(before + p + after) != Crc(before + q + after)
  {
    Shift8Reversible();
    var x, y := before + p + after, before + q + after;
    RegistersApart(Shift8, 0xFFFF_FFFF, before, p, q, after);
    Complement(Feeds(Shift8, 0xFFFF_FFFF, x), Feeds(Shift8, 0xFFFF_FFFF, y));
  }

  // ---- The generator ----

  /** The coefficient of x^k in a generator whose lowest bit stands for x^31. */
  predicate Coefficient(g: bv32, k: nat)
    requires k <= 31
  {
    (g >> (31 - k)) & 1 == 1
  }

  /** The generator polynomial of IEEE Std 802.3; its leading term x^32 is the bit shifted out. */
  lemma GeneratorTerms(k: nat)
    requires k <= 31
    ensures Coefficient(POLYNOMIAL, k) <==> k in {26, 23, 22, 16, 12, 11, 10, 8, 7, 5, 4, 2, 1, 0}
  {
  }

  /** The check value of this CRC: that of the digits 1 to 9 in ASCII. */
  lemma CheckValue()
    ensures Crc([49, 50, 51, 52, 53, 54, 55, 56, 57]) == 0xCBF4_3926
  {
  }
}
