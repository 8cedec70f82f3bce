/** Delay_Init, Delay_Us and Delay_Ms: SysTick runs at an eighth of the core clock, and a delay is the
    number of its ticks written to CMP. */
module Delay {
  import opened Words
  import opened ClockTree

  const EIGHT_MHZ := 8_000_000

  /** `p_us`, on uint8_t. */
  function PerUs(clock: nat): nat {
    clock / EIGHT_MHZ % 256
  }

  /** `p_ms`, on uint16_t. */
  function PerMs(clock: nat): nat {
    PerUs(clock) * 1000 % 0x1_0000
  }

  /** The tick counts `i`, on uint32_t. */
  function UsTicks(clock: nat, n: nat): nat {
    n * PerUs(clock) % U32
  }

  function MsTicks(clock: nat, n: nat): nat {
    n * PerMs(clock) % U32
  }

  /** The factors keep their values in their narrow types exactly for clocks below 528 MHz; from 2.048 GHz
      on p_us itself is cut off. */
  lemma FactorsExactIff(clock: nat)
    requires clock < U32
    ensures PerUs(clock) == clock / EIGHT_MHZ <==> clock < 2_048_000_000
    ensures PerUs(clock) == clock / EIGHT_MHZ && PerMs(clock) == 1000 * PerUs(clock) <==> clock < 528_000_000
  {
    assert clock == EIGHT_MHZ * (clock / EIGHT_MHZ) + clock % EIGHT_MHZ;
  }

  /** For every clock SystemCoreClockUpdate can compute, p_us is at most 18 and p_ms at most 18000. */
  lemma FactorsFit(sws: nat, cfgr0: Bits, exten: Bits, d8c: bool)
    ensures
      var f := CoreClock(sws, cfgr0, exten, d8c);
      && PerUs(f) == f / EIGHT_MHZ <= 18
      && PerMs(f) == 1000 * PerUs(f) <= 18_000
  {
    CoreClockIsFloor(sws, cfgr0, exten, d8c);
    FactorsExactIff(CoreClock(sws, cfgr0, exten, d8c));
  }

  lemma Between(n: nat, clock: nat, q: nat, r: nat)
    requires n >= 1 && clock == EIGHT_MHZ * q + r && r < EIGHT_MHZ
    ensures EIGHT_MHZ * (n * q) + n * r == n * clock
    ensures n * r < EIGHT_MHZ * n
    ensures r == 0 <==> n * r == 0
  {
    assert n * clock == n * (EIGHT_MHZ * q) + n * r;
    assert n * (EIGHT_MHZ * q) == EIGHT_MHZ * (n * q);
    assert n * (EIGHT_MHZ - r) >= 1 * 1;
    assert n * (EIGHT_MHZ - r) == n * EIGHT_MHZ - n * r;
    if r > 0 { assert n * r >= 1 * 1; }
  }

  /** Main result on delays: a delay of n microseconds is never longer than asked and short by less than n
      ticks, as long as the product fits; it is exact only for clocks that are a multiple of 8 MHz. */
  lemma DelayAccuracy(clock: nat, n: nat)
    requires 1 <= n && clock < 2_048_000_000 && n * PerUs(clock) < U32
    ensures
      var ticks := UsTicks(clock, n);
      && n * clock < EIGHT_MHZ * (ticks + n)
      && EIGHT_MHZ * ticks <= n * clock
      && (EIGHT_MHZ * ticks == n * clock <==> clock % EIGHT_MHZ == 0)
      && (ticks == 0 <==> clock < EIGHT_MHZ)
  {
    FactorsExactIff(clock);
    var q, r := clock / EIGHT_MHZ, clock % EIGHT_MHZ;
    assert clock == EIGHT_MHZ * q + r;
    Between(n, clock, q, r);
    assert UsTicks(clock, n) == n * q;
    if q >= 1 { assert n * q >= 1 * 1; }
  }

  /** When the product does not fit, the delay is cut short. */
  lemma WrappedDelayIsShort(clock: nat, n: nat)
    requires n < U32 && n * PerUs(clock) >= U32
    ensures UsTicks(clock, n) <= n * PerUs(clock) - U32
  {
    var x := n * PerUs(clock);
    assert x == U32 * (x / U32) + x % U32;
  }

  /** Delay_Ms(n) programs the ticks of Delay_Us(1000 * n), wherever either product or the argument wraps. */
  lemma MillisecondsAreMicroseconds(clock: nat, n: nat)
    requires clock < 528_000_000
    ensures MsTicks(clock, n) == UsTicks(clock, 1000 * n % U32)
  {
    FactorsExactIff(clock);
    var p := PerUs(clock);
    var k := 1000 * n / U32;
    assert 1000 * n == U32 * k + 1000 * n % U32;
    assert n * (1000 * p) == (1000 * n) * p;
    assert (1000 * n) * p == (1000 * n % U32) * p + U32 * (k * p);
    AddMultiple((1000 * n % U32) * p, k * p);
  }

  /** The PLL factor of a preset, or 1 without the PLL. */
  function PresetFactor(p: Preset): nat {
    if p.Hse? then 1 else Factor(p.mul)
  }

  /** With a preset a delay of n microseconds is exactly n times the PLL factor, as long as that fits. */
  lemma PresetDelayIsExact(p: Preset, n: nat)
    requires n * PresetFactor(p) < U32
    ensures UsTicks(Frequency(p), n) == n * PresetFactor(p)
    ensures EIGHT_MHZ * UsTicks(Frequency(p), n) == n * Frequency(p)
  {
    var k := PresetFactor(p);
    assert Frequency(p) == EIGHT_MHZ * k && k <= 18;
    assert PerUs(Frequency(p)) == k;
    assert EIGHT_MHZ * (n * k) == n * (EIGHT_MHZ * k);
  }

  // ---- The functions ----

  class SysTick {
    var pUs: nat
    var pMs: nat
    var ctlr: Bits
    var sr: Bits
    var cmp: nat

    constructor ()
      ensures pUs == 0 && pMs == 0
    {
      pUs, pMs, ctlr, sr, cmp := 0, 0, {}, {}, 0;
    }

    /** The factors belong to `clock`. */
    predicate Calibrated(clock: nat)
      reads this
    {
      pUs == PerUs(clock) && pMs == PerMs(clock)
    }

    method DelayInit(systemCoreClock: nat)
      requires systemCoreClock < U32
      modifies this`pUs, this`pMs
      ensures Calibrated(systemCoreClock)
    {
      pUs := systemCoreClock / 8_000_000 % 256;
      pMs := pUs * 1000 % 0x1_0000;
    }

    /** Count `i` ticks down: `flag` gives bit 0 of SR at each read, and the hardware sets it at some read. */
    method Count(i: nat, flag: nat -> bool, ghost bound: nat)
      requires flag(bound)
      modifies this`cmp, this`ctlr, this`sr
      ensures cmp == i && ctlr == old(ctlr) + {4, 5} - {0}
    {
      cmp := i;
      ctlr := ctlr + {4};
      ctlr := ctlr + {5} + {0};
      var k := 0;
      while !flag(k)
        invariant k <= bound
        decreases bound - k
      {
        k := k + 1;
      }
      sr := sr + {0};
      ctlr := ctlr - {0};
    }

    method DelayUs(n: nat, ghost clock: nat, flag: nat -> bool, ghost bound: nat)
      requires n < U32 && Calibrated(clock) && flag(bound)
      modifies this`cmp, this`ctlr, this`sr
      ensures cmp == UsTicks(clock, n) && ctlr == old(ctlr) + {4, 5} - {0}
    {
      sr := sr - {0};
      Count(n * pUs % U32, flag, bound);
    }

    method DelayMs(n: nat, ghost clock: nat, flag: nat -> bool, ghost bound: nat)
      requires n < U32 && Calibrated(clock) && flag(bound)
      modifies this`cmp, this`ctlr, this`sr
      ensures cmp == MsTicks(clock, n) && ctlr == old(ctlr) + {4, 5} - {0}
    {
      sr := sr - {0};
      Count(n * pMs % U32, flag, bound);
    }
  }
}
