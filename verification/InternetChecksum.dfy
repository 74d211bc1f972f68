/** The one's-complement header checksum of section 3.1 of RFC 791, as both C files compute it. */
module InternetChecksum {
  import opened Modular
  import opened BigEndian

  function Be16(hi: bv8, lo: bv8): (r: nat)
    ensures r < 0x1_0000
  {
    hi as int * 0x100 + lo as int
  }

  /** The 16-bit words of an even number of bytes, added up. */
  function Sum16(d: seq<bv8>): nat {
    if |d| < 2 then 0 else Sum16(d[..|d| - 2]) + Be16(d[|d| - 2], d[|d| - 1])
  }

  /** The number between 0 and 65535 that s folds to: congruent modulo 65535, and zero only for zero. */
  function Folded(s: nat): (r: nat)
    ensures r <= 0xFFFF
  {
    if s == 0 then 0 else (s - 1) % 0xFFFF + 1
  }

  /** The checksum of d, whose word sum must fit the 32-bit accumulator. */
  function Checksum(d: seq<bv8>): (r: nat)
    ensures r <= 0xFFFF
  {
    0xFFFF - Folded(Sum16(d) % WORD)
  }

  lemma FoldStep(s: nat)
    ensures Folded(s % 0x1_0000 + s / 0x1_0000) == Folded(s)
    ensures s >= 0x1_0000 ==> s % 0x1_0000 + s / 0x1_0000 < s
  {
    var h, l := s / 0x1_0000, s % 0x1_0000;
    assert s == h * 0xFFFF + (h + l);
    if h + l > 0 {
      var q, r := (h + l - 1) / 0xFFFF, (h + l - 1) % 0xFFFF;
      assert s - 1 == (h + q) * 0xFFFF + r;
      ModUnique(s - 1, h + q, r, 0xFFFF);
    }
  }

  lemma FoldDone(s: nat)
    requires s < 0x1_0000
    ensures Folded(s) == s
  {
    if s > 0 {
      ModUnique(s - 1, 0, s - 1, 0xFFFF);
    }
  }

  /** The folding loop ends, on a 16-bit value congruent to the sum. */
  method Fold(total: nat) returns (sum: nat)
    ensures sum == Folded(total)
  {
    sum := total;
    while sum / 0x1_0000 != 0
      invariant Folded(sum) == Folded(total)
      decreases sum
    {
      FoldStep(sum);
      sum := sum % 0x1_0000 + sum / 0x1_0000;
    }
    FoldDone(sum);
  }

  /** The board's checksum over len bytes from at; the length is even at both call sites. */
  method Ipv4Checksum(data: array<bv8>, at: nat, len: nat) returns (c: nat)
    requires at + len <= data.Length && len % 2 == 0
    ensures c == Checksum(data[at..at + len])
  {
    var sum := 0;
    var i := 0;
    while i < len
      invariant 0 <= i <= len && i % 2 == 0
      invariant sum == Sum16(data[at..at + i]) % WORD
    {
      ghost var d := data[at..at + i + 2];
      assert d[..i] == data[at..at + i];
      CountMod(Sum16(data[at..at + i]), Be16(data[at + i], data[at + i + 1]));
      sum := (sum + Be16(data[at + i], data[at + i + 1])) % WORD;
      i := i + 2;
    }
    sum := Fold(sum);
    c := 0xFFFF - sum;
  }

  // ---- The filled header ----

  /** d with the 16-bit word w at byte k. */
  function Filled(d: seq<bv8>, k: nat, w: nat): (r: seq<bv8>)
    requires k + 2 <= |d| && w <= 0xFFFF
    ensures |r| == |d|
  {
    d[k := (w / 0x100) as bv8][k + 1 := (w % 0x100) as bv8]
  }

  lemma {:induction false} SumConcat(p: seq<bv8>, q: seq<bv8>)
    requires |q| % 2 == 0
    ensures Sum16(p + q) == Sum16(p) + Sum16(q)
    decreases |q|
  {
    if q == [] {
      assert p + q == p;
    } else {
      var n := |q| - 2;
      SumConcat(p, q[..n]);
      assert (p + q)[..|p + q| - 2] == p + q[..n];
    }
  }

  lemma WordBytes(w: nat)
    requires w <= 0xFFFF
    ensures Be16((w / 0x100) as bv8, (w % 0x100) as bv8) == w
  {
    ByteCast(w / 0x100);
    ByteCast(w % 0x100);
  }

  lemma SumParts(p: seq<bv8>, a: bv8, b: bv8, q: seq<bv8>)
    requires |q| % 2 == 0
    ensures Sum16(p + [a, b] + q) == Sum16(p) + Be16(a, b) + Sum16(q)
  {
    SumConcat(p + [a, b], q);
    assert (p + [a, b])[..|p|] == p;
  }

  lemma EvenRest(n: nat, k: nat)
    requires n % 2 == 0 && k % 2 == 0
    ensures (n - k - 2) % 2 == 0
  {
  }

  lemma Around(d: seq<bv8>, k: nat, a: bv8, b: bv8)
    requires k + 2 <= |d|
    ensures d == d[..k] + [d[k], d[k + 1]] + d[k + 2..]
    ensures d[k := a][k + 1 := b] == d[..k] + [a, b] + d[k + 2..]
  {
  }

  lemma FilledSum(d: seq<bv8>, k: nat, w: nat)
    requires |d| % 2 == 0 && k % 2 == 0 && k + 2 <= |d| && w <= 0xFFFF && d[k] == d[k + 1] == 0
    ensures Sum16(Filled(d, k, w)) == Sum16(d) + w
  {
    var hi, lo := (w / 0x100) as bv8, (w % 0x100) as bv8;
    var p, q := d[..k], d[k + 2..];
    EvenRest(|d|, k);
    WordBytes(w);
    Around(d, k, hi, lo);
    SumParts(p, 0, 0, q);
    SumParts(p, hi, lo, q);
  }

  lemma {:induction false} SumBound(d: seq<bv8>)
    requires |d| % 2 == 0
    ensures Sum16(d) <= |d| / 2 * 0xFFFF
  {
    if |d| < 2 {
    } else {
      SumBound(d[..|d| - 2]);
    }
  }

  lemma FoldsToOnes(s: nat)
    ensures Folded(s) == 0xFFFF <==> s > 0 && s % 0xFFFF == 0
  {
    if s > 0 {
      var q, r := (s - 1) / 0xFFFF, (s - 1) % 0xFFFF;
      assert s == q * 0xFFFF + (r + 1);
      if r == 0xFFFE {
        ModUnique(s, q + 1, 0, 0xFFFF);
      } else {
        ModUnique(s, q, r + 1, 0xFFFF);
      }
    }
  }

  lemma Complements(s: nat, w: nat)
    requires s > 0 && w <= 0xFFFF
    ensures (s + w) % 0xFFFF == 0 <==> w == 0xFFFF - Folded(s) || (Folded(s) == 0xFFFF && w == 0xFFFF)
  {
    var q, r := (s - 1) / 0xFFFF, Folded(s);
    assert s + w == q * 0xFFFF + (r + w);
    if r + w < 0xFFFF {
      ModUnique(s + w, q, r + w, 0xFFFF);
    } else if r + w < 2 * 0xFFFF {
      ModUnique(s + w, q + 1, r + w - 0xFFFF, 0xFFFF);
    } else {
      ModUnique(s + w, q + 2, 0, 0xFFFF);
    }
  }

  lemma NoWrap(s: nat, w: nat)
    requires s <= 0x8000 * 0xFFFF && w <= 0xFFFF
    ensures s % WORD == s && (s + w) % WORD == s + w
  {
    ModUnique(s, 0, s, WORD);
    ModUnique(s + w, 0, s + w, WORD);
  }

  /** When a word added to the sum brings the checksum to zero. */
  lemma ZeroSum(s: nat, w: nat)
    requires w <= 0xFFFF
    ensures Folded(s + w) == 0xFFFF <==> w == 0xFFFF - Folded(s) || (Folded(s) == 0xFFFF && w == 0xFFFF)
  {
    FoldsToOnes(s + w);
    if s > 0 {
      Complements(s, w);
    } else {
      FoldDone(w);
    }
  }

  /**
   Filling the empty checksum word with the checksum makes the whole re-check to zero, and no other
   word does, but for the second form of zero.
   */
  lemma ReChecksToZero(d: seq<bv8>, k: nat, w: nat)
    requires |d| % 2 == 0 && |d| <= 0x1_0000 && k % 2 == 0 && k + 2 <= |d| && d[k] == d[k + 1] == 0
    requires w <= 0xFFFF
    ensures Checksum(Filled(d, k, w)) == 0 <==> w == Checksum(d) || (Checksum(d) == 0 && w == 0xFFFF)
  {
    FilledSum(d, k, w);
    SumBound(d);
    NoWrap(Sum16(d), w);
    ZeroSum(Sum16(d), w);
  }

  method PutBe16(frame: array<bv8>, at: nat, w: nat)
    requires at + 2 <= frame.Length && w <= 0xFFFF
    modifies frame
    ensures frame[..] == Filled(old(frame[..]), at, w)
  {
    frame[at] := (w / 0x100) as bv8;
    frame[at + 1] := (w % 0x100) as bv8;
  }

  /** A write inside a window, seen in the window. */
  lemma InWindow(s: seq<bv8>, at: nat, len: nat, k: nat, w: nat)
    requires at + len <= |s| && k + 2 <= len && w <= 0xFFFF
    ensures Filled(s, at + k, w)[at..at + len] == Filled(s[at..at + len], k, w)
  {
  }

  /** The checksum filled in: the header checks, and nothing else changes. */
  method FillChecksum(frame: array<bv8>, at: nat, len: nat, k: nat)
    requires at + len <= frame.Length && len % 2 == 0 && len <= 0x1_0000 && k % 2 == 0 && k + 2 <= len
    requires frame[at + k] == frame[at + k + 1] == 0
    modifies frame
    ensures frame[..] == Filled(old(frame[..]), at + k, Checksum(old(frame[at..at + len])))
    ensures Checksum(frame[..][at..at + len]) == 0
  {
    ghost var s := frame[..];
    assert frame[at..at + len] == s[at..at + len];
    var c := Ipv4Checksum(frame, at, len);
    InWindow(s, at, len, k, c);
    ReChecksToZero(s[at..at + len], k, c);
    PutBe16(frame, at + k, c);
  }
}
