/** The bitwise operators of C on unsigned 32-bit values, and what they do with masks of leading or trailing ones. */
module Bits {
  import opened Modular

  function Pow2(k: nat): (r: nat)
    ensures r > 0
  {
    if k == 0 then 1 else 2 * Pow2(k - 1)
  }

  function And(x: nat, y: nat): nat {
    if x == 0 || y == 0 then 0 else 2 * And(x / 2, y / 2) + (if x % 2 == 1 && y % 2 == 1 then 1 else 0)
  }

  function Or(x: nat, y: nat): nat {
    if x == 0 then y else if y == 0 then x
    else 2 * Or(x / 2, y / 2) + (if x % 2 == 1 || y % 2 == 1 then 1 else 0)
  }

  /** x << n in 32 bits. */
  function Shl(x: nat, n: nat): nat {
    x * Pow2(n) % WORD
  }

  /** ~x in 32 bits. */
  function Not(x: nat): int {
    WORD - 1 - x
  }

  lemma {:induction false} AndOrSum(x: nat, y: nat)
    ensures And(x, y) + Or(x, y) == x + y
    decreases x
  {
    if x == 0 || y == 0 {
    } else {
      AndOrSum(x / 2, y / 2);
    }
  }

  lemma {:induction false} Pow2Add(a: nat, b: nat)
    ensures Pow2(a + b) == Pow2(a) * Pow2(b)
  {
    if a == 0 {
    } else {
      Pow2Add(a - 1, b);
      assert Pow2(a) * Pow2(b) == 2 * (Pow2(a - 1) * Pow2(b));
    }
  }

  lemma Doubled(x: nat, m: nat)
    requires 0 < m
    ensures x % (2 * m) == 2 * (x / 2 % m) + x % 2
  {
    var q, r := x / 2 / m, x / 2 % m;
    assert x == q * (2 * m) + (2 * r + x % 2);
    ModUnique(x, q, 2 * r + x % 2, 2 * m);
  }

  lemma {:induction false} Pow2Mono(n: nat, k: nat)
    ensures Pow2(n + k) >= Pow2(k)
  {
    if n == 0 {
    } else {
      Pow2Mono(n - 1, k);
    }
  }

  lemma AndEven(x: nat, m: nat, l: nat)
    requires 0 < l && And(x / 2, m) == x / 2 - x / 2 % l
    ensures And(x, 2 * m) == x - x % (2 * l)
  {
    Doubled(x, l);
    assert x == 2 * (x / 2) + x % 2;
  }

  lemma AndOdd(x: nat, m: nat)
    requires And(x / 2, m) == x / 2
    ensures And(x, 2 * m + 1) == x
  {
  }

  /** A mask of n ones above k zeros clears the low k bits of an (n + k)-bit value. */
  lemma {:induction false} AndHigh(x: nat, n: nat, k: nat)
    requires x < Pow2(n + k)
    ensures Pow2(n + k) >= Pow2(k)
    ensures And(x, Pow2(n + k) - Pow2(k)) == x - x % Pow2(k)
    decreases k, n
  {
    Pow2Mono(n, k);
    if k > 0 {
      AndHigh(x / 2, n, k - 1);
      AndEven(x, Pow2(n + k - 1) - Pow2(k - 1), Pow2(k - 1));
    } else {
      AndAll(x, n);
    }
  }

  lemma {:induction false} AndAll(x: nat, n: nat)
    requires x < Pow2(n)
    ensures And(x, Pow2(n) - 1) == x
  {
    if n == 0 {
    } else {
      AndAll(x / 2, n - 1);
      AndOdd(x, Pow2(n - 1) - 1);
    }
  }

  /** A mask of k ones keeps the low k bits. */
  lemma {:induction false} AndLow(x: nat, k: nat)
    ensures And(x, Pow2(k) - 1) == x % Pow2(k)
    decreases k
  {
    if k == 0 {
    } else {
      AndLow(x / 2, k - 1);
      Doubled(x, Pow2(k - 1));
    }
  }

  /** A mask of fewer than k bits sees only the low k bits. */
  lemma {:induction false} AndBelow(x: nat, m: nat, k: nat)
    requires m < Pow2(k)
    ensures And(x, m) == And(x % Pow2(k), m)
    decreases k
  {
    if k == 0 {
    } else {
      Doubled(x, Pow2(k - 1));
      AndBelow(x / 2, m / 2, k - 1);
      HalfOf(x, Pow2(k - 1));
    }
  }

  lemma HalfOf(x: nat, m: nat)
    requires 0 < m
    ensures x % (2 * m) / 2 == x / 2 % m && x % (2 * m) % 2 == x % 2
  {
    Doubled(x, m);
  }

  lemma Word16()
    ensures Pow2(8) == 0x100 && Pow2(16) == 0x1_0000
  {
    Pow2Add(4, 4);
    Pow2Add(8, 8);
  }

  lemma Word32()
    ensures Pow2(32) == WORD
    ensures Pow2(28) == 0x1000_0000 && Pow2(24) == 0x100_0000
  {
    Word16();
    Pow2Add(16, 8);
    Pow2Add(24, 4);
    Pow2Add(16, 16);
  }
}
