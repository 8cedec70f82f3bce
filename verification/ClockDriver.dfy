/** The clock set-up as the C code has it: read-modify-write sequences on RCC and the wait loops between
    them.  A read of CTLR shows hardware flags that the software can neither choose nor write. */
module ClockDriver {
  import opened Words
  import opened ClockTree

  /** What `reg |= mask` leaves in a register whose hardware flags read as anything and cannot be written. */
  method SetBits(reg: Bits, mask: Bits, hardware: Bits) returns (stored: Bits)
    requires reg !! hardware && mask !! hardware
    ensures stored == reg + mask && stored !! hardware
  {
    var flags: Bits := *;
    var value := reg + flags * hardware;
    value := value + mask;
    stored := value - hardware;
  }

  /** The same for `reg &= ~mask`. */
  method ClearBits(reg: Bits, mask: Bits, hardware: Bits) returns (stored: Bits)
    requires reg !! hardware
    ensures stored == reg - mask && stored !! hardware
  {
    var flags: Bits := *;
    var value := reg + flags * hardware;
    value := value - mask;
    stored := value - hardware;
  }

  class Clock {
    var ctlr: Bits
    var cfgr0: Bits
    var intr: Bits
    var cfgr2: Bits
    var exten: Bits
    var systemCoreClock: nat
    ghost var hseSeen: bool
    ghost var pllSeen: bool
    ghost var origin: Rcc          // the registers at reset
    ghost var history: seq<Op>     // everything done since

    ghost function Regs(): Rcc
      reads this
    {
      Rcc(ctlr, cfgr0, intr, cfgr2, exten, hseSeen, pllSeen)
    }

    ghost predicate Consistent()
      reads this
    {
      Regs() == ExecAll(origin, history) && ctlr !! CTLR_FLAGS && cfgr0 !! SWS
    }

    /** Arbitrary register contents at reset. */
    constructor (ctlr: Bits, cfgr0: Bits, intr: Bits, cfgr2: Bits, exten: Bits)
      requires ctlr !! CTLR_FLAGS && cfgr0 !! SWS
      ensures Consistent() && history == []
      ensures origin == Rcc(ctlr, cfgr0, intr, cfgr2, exten, false, false)
    {
      this.ctlr, this.cfgr0, this.intr, this.cfgr2, this.exten := ctlr, cfgr0, intr, cfgr2, exten;
      systemCoreClock := HSI_VALUE;
      hseSeen, pllSeen := false, false;
      origin, history := Rcc(ctlr, cfgr0, intr, cfgr2, exten, false, false), [];
    }

    // ---- Read-modify-write ----

    method OrCtlr(mask: Bits)
      requires Consistent() && mask !! CTLR_FLAGS
      modifies this`ctlr, this`history
      ensures Consistent() && history == old(history) + [CtlrOr(mask)]
    {
      ExecNext(origin, history, CtlrOr(mask));
      ctlr := SetBits(ctlr, mask, CTLR_FLAGS);
      history := history + [CtlrOr(mask)];
    }

    method ClearCtlr(mask: Bits)
      requires Consistent()
      modifies this`ctlr, this`hseSeen, this`pllSeen, this`history
      ensures Consistent() && history == old(history) + [CtlrClear(mask)]
    {
      ExecNext(origin, history, CtlrClear(mask));
      ctlr := ClearBits(ctlr, mask, CTLR_FLAGS);
      hseSeen, pllSeen := hseSeen && HSEON !in mask, pllSeen && PLLON !in mask;
      history := history + [CtlrClear(mask)];
    }

    method OrCfgr0(mask: Bits)
      requires Consistent() && mask !! SWS
      modifies this`cfgr0, this`history
      ensures Consistent() && history == old(history) + [CfgrOr(mask)]
    {
      ExecNext(origin, history, CfgrOr(mask));
      cfgr0 := SetBits(cfgr0, mask, SWS);
      history := history + [CfgrOr(mask)];
    }

    method ClearCfgr0(mask: Bits)
      requires Consistent()
      modifies this`cfgr0, this`history
      ensures Consistent() && history == old(history) + [CfgrClear(mask)]
    {
      ExecNext(origin, history, CfgrClear(mask));
      cfgr0 := ClearBits(cfgr0, mask, SWS);
      history := history + [CfgrClear(mask)];
    }

    method OrExten(mask: Bits)
      requires Consistent()
      modifies this`exten, this`history
      ensures Consistent() && history == old(history) + [ExtenOr(mask)]
    {
      ExecNext(origin, history, ExtenOr(mask));
      exten := exten + mask;
      history := history + [ExtenOr(mask)];
    }

    method WriteIntr(value: Bits)
      requires Consistent()
      modifies this`intr, this`history
      ensures Consistent() && history == old(history) + [SetIntr(value)]
    {
      ExecNext(origin, history, SetIntr(value));
      intr := value;
      history := history + [SetIntr(value)];
    }

    method WriteCfgr2(value: Bits)
      requires Consistent()
      modifies this`cfgr2, this`history
      ensures Consistent() && history == old(history) + [SetCfgr2(value)]
    {
      ExecNext(origin, history, SetCfgr2(value));
      cfgr2 := value;
      history := history + [SetCfgr2(value)];
    }

    // ---- Waits ----

    /** The poll loop: `hse` gives HSERDY at each read of CTLR.  It stops at the first set flag or after
        0x1000 reads. */
    method PollHse(hse: nat -> bool) returns (polls: nat)
      ensures 1 <= polls <= 4096
      ensures forall k | 0 <= k < polls - 1 :: !hse(k)
      ensures hse(polls - 1) || polls == 4096
    {
      var status := hse(0);
      polls := 1;
      while !status && polls != HSE_STARTUP_TIMEOUT
        invariant 1 <= polls <= HSE_STARTUP_TIMEOUT && status == hse(polls - 1)
        invariant forall k | 0 <= k < polls - 1 :: !hse(k)
        decreases HSE_STARTUP_TIMEOUT - polls
      {
        status := hse(polls);
        polls := polls + 1;
      }
    }

    /** HSEON, the poll, and the one more read of HSERDY that decides. */
    method StartHse(hse: nat -> bool) returns (polls: nat, ready: bool)
      requires Consistent()
      modifies this`ctlr, this`hseSeen, this`history
      ensures Consistent()
      ensures 1 <= polls <= 4096 && ready == hse(polls)
      ensures history == old(history) + if ready then [CtlrOr({HSEON}), SeeHse] else [CtlrOr({HSEON})]
    {
      OrCtlr({HSEON});
      polls := PollHse(hse);
      ready := hse(polls);
      if ready { NoteHse(); }
    }

    method NoteHse()
      requires Consistent()
      modifies this`hseSeen, this`history
      ensures Consistent() && history == old(history) + [SeeHse]
    {
      ExecNext(origin, history, SeeHse);
      hseSeen := true;
      history := history + [SeeHse];
    }

    /** The wait for PLLRDY; the hardware sets the flag at some read. */
    method AwaitPll(pll: nat -> bool, ghost bound: nat)
      requires Consistent() && pll(bound)
      modifies this`pllSeen, this`history
      ensures Consistent() && history == old(history) + [SeePll]
    {
      var k := 0;
      while !pll(k)
        invariant k <= bound
        decreases bound - k
      {
        k := k + 1;
      }
      ExecNext(origin, history, SeePll);
      pllSeen := true;
      history := history + [SeePll];
    }

    /** The wait for SWS; the hardware reports the source at some read. */
    method AwaitSws(sws: nat -> nat, target: nat, ghost bound: nat) returns (seen: nat)
      requires sws(bound) == target
      ensures seen == target
    {
      var k := 0;
      while sws(k) != target
        invariant k <= bound
        decreases bound - k
      {
        k := k + 1;
      }
      seen := sws(k);
    }

    // ---- SystemInit and the presets ----

    method SystemInit(d8c: bool)
      requires Consistent()
      modifies this
      ensures Consistent() && origin == old(origin) && history == old(history) + InitOps(d8c)
    {
      SelectHsi(if d8c then LOW_HALF + {24, 25, 26} else LOW_HALF + {24, 25, 26, 27});
      FinishInit(d8c);
    }

    /** HSI on and selected, then the other sources off. */
    method SelectHsi(low: Bits)
      requires Consistent()
      modifies this
      ensures Consistent() && origin == old(origin)
      ensures history == old(history)
        + [CtlrOr({HSION}), CfgrClear(low), CtlrClear({PLLON, CSSON, HSEON}), CtlrClear({HSEBYP})]
    {
      OrCtlr({HSION});
      ClearCfgr0(low);
      ClearCtlr({PLLON, CSSON, HSEON});
      ClearCtlr({HSEBYP});
    }

    /** The rest of the reset state. */
    method FinishInit(d8c: bool)
      requires Consistent()
      modifies this
      ensures Consistent() && origin == old(origin)
      ensures history == old(history) + FinishOps(d8c)
    {
      ClearCfgr0({16, 17, 18, 19, 20, 21, 22});
      if d8c {
        ClearCtlr({28, 26});
        WriteIntr({16, 17, 18, 19, 20, 21, 22, 23});
        WriteCfgr2({});
      } else {
        WriteIntr({16, 17, 18, 19, 20, 23});
      }
    }

    /** HPRE and PPRE2 at 1. */
    method SetDividers(ppre1: Bits)
      requires Consistent() && ppre1 <= PPRE1_DIV2
      modifies this
      ensures Consistent() && origin == old(origin)
      ensures history == old(history) + [CfgrOr({}), CfgrOr({}), CfgrOr(ppre1)]
    {
      OrCfgr0({});
      OrCfgr0({});
      OrCfgr0(ppre1);
    }

    method StartPll(input: Bits, pll: nat -> bool, ghost pllBound: nat)
      requires Consistent() && input <= PLL_INPUT && pll(pllBound)
      modifies this
      ensures Consistent() && origin == old(origin)
      ensures history == old(history) + [CfgrClear(PLL_INPUT), CfgrOr(input), CtlrOr({PLLON}), SeePll]
    {
      ClearCfgr0(PLL_INPUT);
      OrCfgr0(input);
      OrCtlr({PLLON});
      AwaitPll(pll, pllBound);
    }

    /** `SW = target`, and the wait until SWS reports it. */
    method Select(bit: nat, sws: nat -> nat, target: nat, ghost swsBound: nat)
      requires Consistent() && bit < 2 && sws(swsBound) == target
      modifies this
      ensures Consistent() && origin == old(origin)
      ensures history == old(history) + [CfgrClear(SW), CfgrOr({bit})]
    {
      ClearCfgr0(SW);
      OrCfgr0({bit});
      var _ := AwaitSws(sws, target, swsBound);
    }

    /** The part common to the PLL presets. */
    method SelectPll(source: Bits, code: Bits, pll: nat -> bool, ghost pllBound: nat, sws: nat -> nat,
                     ghost swsBound: nat)
      requires Consistent() && source <= {PLLSRC} && code <= PLLMULL
      requires pll(pllBound) && sws(swsBound) == 2
      modifies this
      ensures Consistent() && origin == old(origin) && history == old(history) + PllOps(source, code)
    {
      SetDividers(PPRE1_DIV2);
      StartPll(source + code, pll, pllBound);
      Select(1, sws, 2, swsBound);
    }

    method SetSysClockToHse(d8c: bool, hse: nat -> bool, sws: nat -> nat, ghost swsBound: nat)
      returns (polls: nat, ready: bool)
      requires Consistent() && sws(swsBound) == 1
      modifies this
      ensures Consistent() && origin == old(origin)
      ensures 1 <= polls <= 4096 && ready == hse(polls)
      ensures history == old(history) + PresetOps(Hse, d8c, ready)
    {
      polls, ready := StartHse(hse);
      if ready {
        SetDividers({});
        Select(0, sws, 1, swsBound);
        assert history == old(history) + ([CtlrOr({HSEON}), SeeHse] + ReadyOps(Hse, d8c));
      }
    }

    /** SetSysClockTo48_HSE to SetSysClockTo144_HSE. */
    method SetSysClockToHsePll(mul: Multiplier, d8c: bool, hse: nat -> bool, pll: nat -> bool, ghost pllBound: nat,
                               sws: nat -> nat, ghost swsBound: nat)
      returns (polls: nat, ready: bool)
      requires Consistent() && pll(pllBound) && sws(swsBound) == 2
      modifies this
      ensures Consistent() && origin == old(origin)
      ensures 1 <= polls <= 4096 && ready == hse(polls)
      ensures history == old(history) + PresetOps(HsePll(mul), d8c, ready)
    {
      polls, ready := StartHse(hse);
      if ready {
        SelectPll({PLLSRC}, MullCode(mul, d8c), pll, pllBound, sws, swsBound);
        assert history == old(history) + ([CtlrOr({HSEON}), SeeHse] + ReadyOps(HsePll(mul), d8c));
      }
    }

    /** SetSysClockTo48_HSI to SetSysClockTo144_HSI. */
    method SetSysClockToHsiPll(mul: Multiplier, d8c: bool, pll: nat -> bool, ghost pllBound: nat,
                               sws: nat -> nat, ghost swsBound: nat)
      requires Consistent() && pll(pllBound) && sws(swsBound) == 2
      modifies this
      ensures Consistent() && origin == old(origin)
      ensures history == old(history) + PresetOps(HsiPll(mul), d8c, true)
    {
      OrExten({PLL_HSI_PRE});
      SelectPll({}, MullCode(mul, d8c), pll, pllBound, sws, swsBound);
      assert history == old(history) + ([ExtenOr({PLL_HSI_PRE})] + ReadyOps(HsiPll(mul), d8c));
    }

    // ---- SystemCoreClockUpdate ----

    /** The multiplier as the code adjusts it; `half` marks 6.5. */
    method AdjustedMultiplier(d8c: bool) returns (pllmull: nat, half: bool)
      ensures DoubledMultiplier(MullField(cfgr0), d8c) == if half then pllmull else 2 * pllmull
      ensures pllmull <= 18
    {
      pllmull, half := MullField(cfgr0) + 2, false;
      if !d8c {
        if pllmull == 17 { pllmull := 18; }
      } else {
        if pllmull == 2 { pllmull := 18; }
        if pllmull == 15 {
          pllmull := 13;
          half := true;
        }
        if pllmull == 16 { pllmull := 15; }
        if pllmull == 17 { pllmull := 16; }
      }
    }

    /** The PLL output as the code computes it. */
    method PllOutput(d8c: bool) returns (f: nat)
      ensures f == PllInput(cfgr0, exten) * DoubledMultiplier(MullField(cfgr0), d8c) / 2
    {
      var pllmull, half := AdjustedMultiplier(d8c);
      if PLLSRC !in cfgr0 {
        if PLL_HSI_PRE in exten {
          f := HSI_VALUE * pllmull;
        } else {
          f := (HSI_VALUE / 2) * pllmull;
        }
      } else {
        if PLLXTPRE in cfgr0 {
          f := (HSE_VALUE / 2) * pllmull;
        } else {
          f := HSE_VALUE * pllmull;
        }
      }
      if half { f := f / 2; }
    }

    /** SystemCoreClockUpdate, with the source that SWS reports. */
    method SystemCoreClockUpdate(sws: nat, d8c: bool)
      requires sws < 4
      modifies this`systemCoreClock
      ensures systemCoreClock == CoreClock(sws, cfgr0, exten, d8c)
    {
      if sws == 0 {
        systemCoreClock := HSI_VALUE;
      } else if sws == 1 {
        systemCoreClock := HSE_VALUE;
      } else if sws == 2 {
        var f := PllOutput(d8c);
        systemCoreClock := f;
      } else {
        systemCoreClock := HSI_VALUE;
      }
      var tmp := AHB_PRESC_TABLE[HpreField(cfgr0)];
      systemCoreClock := ShiftRight(systemCoreClock, tmp);
    }

    /** From reset to the measured clock with a PLL preset on the external oscillator: every write was safe,
        the poll ended in time, and the clock found is the preset's or, without the oscillator, HSI. */
    method BootHsePll(mul: Multiplier, d8c: bool, hse: nat -> bool, pll: nat -> bool, ghost pllBound: nat,
                      sws: nat -> nat, ghost swsBound: nat)
      returns (polls: nat, ready: bool)
      requires Consistent() && history == [] && pll(pllBound) && sws(swsBound) == 2
      modifies this
      ensures AllSafe(origin, history) && origin == old(origin)
      ensures 1 <= polls <= 4096 && ready == hse(polls)
      ensures systemCoreClock == if ready then Frequency(HsePll(mul)) else 8_000_000
    {
      SystemInit(d8c);
      polls, ready := SetSysClockToHsePll(mul, d8c, hse, pll, pllBound, sws, swsBound);
      BootHistory(origin, history, HsePll(mul), d8c, ready);
      SystemCoreClockUpdate(if ready then 2 else 0, d8c);
    }

    /** The same with the external oscillator itself. */
    method BootHse(d8c: bool, hse: nat -> bool, sws: nat -> nat, ghost swsBound: nat)
      returns (polls: nat, ready: bool)
      requires Consistent() && history == [] && sws(swsBound) == 1
      modifies this
      ensures AllSafe(origin, history) && origin == old(origin)
      ensures 1 <= polls <= 4096 && ready == hse(polls)
      ensures systemCoreClock == 8_000_000
    {
      SystemInit(d8c);
      polls, ready := SetSysClockToHse(d8c, hse, sws, swsBound);
      BootHistory(origin, history, Hse, d8c, ready);
      SystemCoreClockUpdate(if ready then 1 else 0, d8c);
    }

    /** The same with a PLL preset on the internal oscillator, which needs no start-up. */
    method BootHsiPll(mul: Multiplier, d8c: bool, pll: nat -> bool, ghost pllBound: nat,
                      sws: nat -> nat, ghost swsBound: nat)
      requires Consistent() && history == [] && pll(pllBound) && sws(swsBound) == 2
      modifies this
      ensures AllSafe(origin, history) && origin == old(origin)
      ensures systemCoreClock == Frequency(HsiPll(mul))
    {
      SystemInit(d8c);
      SetSysClockToHsiPll(mul, d8c, pll, pllBound, sws, swsBound);
      BootHistory(origin, history, HsiPll(mul), d8c, true);
      SystemCoreClockUpdate(2, d8c);
    }
  }

  lemma BootHistory(r: Rcc, history: seq<Op>, p: Preset, d8c: bool, ready: bool)
    requires history == [] + InitOps(d8c) + PresetOps(p, d8c, ready)
    ensures AllSafe(r, history)
    ensures
      var r' := ExecAll(r, history);
      CoreClock(SourceOf(p, ready), r'.cfgr0, r'.exten, d8c)
      == if ready || p.HsiPll? then Frequency(p) else 8_000_000
  {
    assert [] + InitOps(d8c) == InitOps(d8c);
    BootIsSafe(r, p, d8c, ready);
    RoundTrip(r, p, d8c, ready);
  }
}
