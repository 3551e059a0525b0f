/** Bytes, and the powers of two their positions stand for. */
module Bytes {
  type Byte = b: int | 0 <= b < 256

  const U64_LIMIT: nat := 0x1_0000_0000_0000_0000

  function Pow2(n: nat): (p: nat)
    ensures p > 0
  {
    if n == 0 then 1 else 2 * Pow2(n - 1)
  }

  lemma Pow2By7(n: nat)
    ensures Pow2(n + 7) == 128 * Pow2(n)
  {
    assert Pow2(n + 7) == 2 * Pow2(n + 6) == 4 * Pow2(n + 5) == 8 * Pow2(n + 4) == 16 * Pow2(n + 3);
    assert Pow2(n + 3) == 2 * Pow2(n + 2) == 4 * Pow2(n + 1) == 8 * Pow2(n);
  }

  lemma {:induction false} Pow2Grows(m: nat, n: nat)
    requires m <= n
    ensures Pow2(m) <= Pow2(n)
    decreases n
  {
    if m < n {
      Pow2Grows(m, n - 1);
    }
  }

  lemma Pow2OfAWord()
    ensures Pow2(63) == 0x8000_0000_0000_0000 && Pow2(64) == U64_LIMIT
  {
    assert Pow2(7) == 128 by { Pow2By7(0); }
    Pow2By7(7);
    Pow2By7(14);
    Pow2By7(21);
    Pow2By7(28);
    Pow2By7(35);
    Pow2By7(42);
    Pow2By7(49);
    Pow2By7(56);
  }
}
