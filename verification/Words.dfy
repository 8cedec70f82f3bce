/** Machine words.  Counters and clocks are natural numbers reduced explicitly where the C code reduces
    them; registers are sets of bit positions. */
module Words {
  const U32 := 0x1_0000_0000

  /** A register or flag word, as the set of the positions of its set bits: OR is union, AND NOT is difference. */
  type Bits = set<nat>

  /** `x++` on a uint8_t. */
  function Inc8(x: nat): nat {
    (x + 1) % 256
  }

  /** `now - then` on uint32_t. */
  function Since(now: nat, then_: nat): nat {
    (now - then_) % U32
  }

  /** An elapsed time measured on the wrapping clock never exceeds the elapsed real time, however often
      the clock has wrapped in between, and is exact for intervals shorter than one period. */
  lemma SinceIsModular(now: nat, stamp: nat)
    requires stamp <= now
    ensures Since(now % U32, stamp % U32) == (now - stamp) % U32
    ensures Since(now % U32, stamp % U32) <= now - stamp
  {
    var a, b := now % U32, stamp % U32;
    assert now == U32 * (now / U32) + a && stamp == U32 * (stamp / U32) + b;
    assert now - stamp == (a - b) + U32 * (now / U32 - stamp / U32);
    AddMultiple(a - b, now / U32 - stamp / U32);
  }

  lemma AddMultiple(x: int, k: int)
    ensures (x + U32 * k) % U32 == x % U32
  {
  }

  function Pow2(k: nat): nat
    ensures Pow2(k) >= 1
  {
    if k == 0 then 1 else 2 * Pow2(k - 1)
  }
}
