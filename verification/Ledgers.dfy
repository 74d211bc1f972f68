/** Sums of what several parties hold and have entered in the owner counters, one entry at a time. */
module Ledgers {

  /** The five owner counters. */
  datatype Counts = Counts(free: int, dma: int, ready: int, worker: int, stack: int)

  /** The entries of a ledger: the places one given buffer is in, the places in use, the counters. */
  datatype Entry = Mine | Size | Free | Dma | Ready | Worker | Stack

  /** What a party holds and what it has entered in the owner counters for it. */
  datatype Ledger = Ledger(mine: int, size: int, free: int, dma: int, ready: int, worker: int, stack: int) {
    function At(e: Entry): int {
      match e
      case Mine => mine
      case Size => size
      case Free => free
      case Dma => dma
      case Ready => ready
      case Worker => worker
      case Stack => stack
    }
  }

  function Total<T>(claim: T -> int, parties: seq<T>): int {
    if parties == [] then 0
    else Total(claim, parties[..|parties| - 1]) + claim(parties[|parties| - 1])
  }

  /** Changing one party changes the total by exactly that party's claim. */
  lemma {:induction false} TotalUpdate<T>(claim: T -> int, ps: seq<T>, t: nat, p: T)
    requires t < |ps|
    ensures Total(claim, ps[t := p]) + claim(ps[t]) == Total(claim, ps) + claim(p)
  {
    var n := |ps| - 1;
    if t == n {
      assert ps[t := p][..n] == ps[..n];
    } else {
      assert ps[t := p][..n] == ps[..n][t := p];
      TotalUpdate(claim, ps[..n], t, p);
    }
  }

  lemma {:induction false} TotalZero<T>(claim: T -> int, ps: seq<T>)
    requires forall p :: p in ps ==> claim(p) == 0
    ensures Total(claim, ps) == 0
  {
    if ps == [] {
    } else {
      TotalZero(claim, ps[..|ps| - 1]);
      assert ps[|ps| - 1] in ps;
    }
  }
}
