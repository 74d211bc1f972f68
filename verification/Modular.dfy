/** Ring-index arithmetic shared by the descriptor rings, the frame gate and the FIFO. */
module Modular {

  /** The C and Verilog idiom (x + 1) mod m on an index that is already reduced. */
  function Next(x: nat, m: nat): (r: nat)
    requires x < m
    ensures r < m
  {
    if x + 1 == m then 0 else x + 1
  }

  /** x advanced by k places on a ring of m slots. */
  function Add(x: nat, k: nat, m: nat): (r: nat)
    requires x < m && k <= m
    ensures r < m
  {
    if x + k < m then x + k else x + k - m
  }

  /** How many places slot i lies ahead of slot x on a ring of m slots. */
  function Ahead(x: nat, i: nat, m: nat): (r: nat)
    requires x < m && i < m
    ensures r < m && Add(x, r, m) == i
  {
    if i >= x then i - x else i + m - x
  }

  /** Quotient and remainder are the only pair of their kind. */
  lemma ModUnique(x: int, q: int, r: int, m: int)
    requires 0 <= r < m && x == q * m + r
    ensures x % m == r && x / m == q
  {
    var q', r' := x / m, x % m;
    assert (q - q') * m == r' - r;
    assert q - q' >= 1 ==> (q - q') * m >= m;
    assert q - q' <= -1 ==> (q - q') * m <= -m;
  }

  /** Next and Add are reductions modulo m. */
  lemma AddIsMod(x: nat, k: nat, m: nat)
    requires x < m && k <= m
    ensures Add(x, k, m) == (x + k) % m
    ensures Next(x, m) == (x + 1) % m
  {
    if x + k < m {
      ModUnique(x + k, 0, x + k, m);
    } else {
      ModUnique(x + k, 1, x + k - m, m);
    }
    if x + 1 < m {
      ModUnique(x + 1, 0, x + 1, m);
    } else {
      ModUnique(x + 1, 1, 0, m);
    }
  }

  /** Stepping a reduced count is reducing the stepped count. */
  lemma NextMod(x: nat, m: nat)
    requires 0 < m
    ensures Next(x % m, m) == (x + 1) % m
  {
    var q, r := x / m, x % m;
    if r + 1 == m {
      assert x + 1 == (q + 1) * m + 0;
      ModUnique(x + 1, q + 1, 0, m);
    } else {
      assert x + 1 == q * m + (r + 1);
      ModUnique(x + 1, q, r + 1, m);
    }
  }

  /** A wrapped counter counts on as the unwrapped one does. */
  lemma ModAdd(n: nat, k: nat, m: nat)
    requires 0 < m
    ensures (n % m + k) % m == (n + k) % m
  {
    var r := (n % m + k) % m;
    assert n + k == (n / m + (n % m + k) / m) * m + r;
    ModUnique(n + k, n / m + (n % m + k) / m, r, m);
  }

  /** The range of a 32-bit counter. */
  const WORD: nat := 0x1_0000_0000

  /** A 32-bit counter after n more counts. */
  function Count(c: nat, n: nat): nat {
    (c + n) % WORD
  }

  lemma CountMod(n: nat, k: nat)
    ensures Count(n % WORD, k) == (n + k) % WORD
  {
    ModAdd(n, k, WORD);
  }
}
