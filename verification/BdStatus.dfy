/** The status word that the AXI DMA engine writes back into a buffer descriptor, and the driver's error code. */
module BdStatus {
  import opened Modular
  import opened Bits

  const TWO26: nat := 0x400_0000
  const TWO28: nat := 0x1000_0000

  const ENOSPC: int := 28

  /** Cmplt (bit 31) or one of the error bits 30..28 is set. */
  predicate Finished(status: nat) {
    status / TWO28 != 0
  }

  /** One of the error bits 30..28 is set. */
  predicate Failed(status: nat) {
    (status / TWO28) % 8 != 0
  }

  /** The 26-bit transferred length. */
  function Length(status: nat): nat {
    status % TWO26
  }

  /** The three tests as the bit masks of a 32-bit status word. */
  lemma StatusBits(status: nat)
    requires status < WORD
    ensures Finished(status) <==> And(status, 0xF000_0000) != 0
    ensures Failed(status) <==> And(status, 0x7000_0000) != 0
    ensures Length(status) == And(status, 0x03FF_FFFF)
  {
    Word32();
    Pow2Add(24, 2);
    Pow2Add(28, 3);
    assert Pow2(26) == TWO26 && Pow2(28) == TWO28 && Pow2(31) == 0x8000_0000;
    AndHigh(status, 4, 28);
    AndLow(status, 26);
    AndBelow(status, 0x7000_0000, 31);
    AndHigh(status % 0x8000_0000, 3, 28);
    TopBits(status);
  }

  lemma TopBits(status: nat)
    requires status < WORD
    ensures status - status % TWO28 == 0 <==> status / TWO28 == 0
    ensures var low := status % 0x8000_0000; low - low % TWO28 == 0 <==> (status / TWO28) % 8 == 0
  {
    var q := status / TWO28;
    var low := status % 0x8000_0000;
    assert status == q * TWO28 + status % TWO28;
    assert status == q / 8 * 0x8000_0000 + (q % 8 * TWO28 + status % TWO28);
    ModUnique(status, q / 8, q % 8 * TWO28 + status % TWO28, 0x8000_0000);
    ModUnique(low, q % 8, status % TWO28, TWO28);
  }
}
