/** What SystemInit and the presets leave in the clock registers, bit by bit, against the masks of the C code. */
module ClockRegisters {
  import opened Words
  import opened ClockTree

  // ---- Running a program without its safety proof ----

  lemma {:induction false} ExecAppend(r: Rcc, a: seq<Op>, b: seq<Op>)
    ensures ExecAll(r, a + b) == ExecAll(ExecAll(r, a), b)
  {
    if b == [] {
      assert a + b == a;
    } else {
      var init, last := b[..|b| - 1], b[|b| - 1];
      ExecAppend(r, a, init);
      ExecNext(r, a + init, last);
      assert a + b == (a + init) + [last];
    }
  }

  lemma ExecTwo(r: Rcc, x: Op, y: Op)
    ensures ExecAll(r, [x, y]) == Exec(Exec(r, x), y)
  {
    assert [x, y][..1] == [x] && [x][..0] == [];
    ExecNext(r, [x], y);
    ExecNext(r, [], x);
    assert [x] + [y] == [x, y] && [] + [x] == [x];
  }

  lemma ExecFour(r: Rcc, w: Op, x: Op, y: Op, z: Op)
    ensures ExecAll(r, [w, x, y, z]) == Exec(Exec(Exec(Exec(r, w), x), y), z)
  {
    ExecTwo(r, w, x);
    ExecTwo(Exec(Exec(r, w), x), y, z);
    ExecAppend(r, [w, x], [y, z]);
    assert [w, x] + [y, z] == [w, x, y, z];
  }

  // ---- SystemInit ----

  lemma ExecSelectHsi(r: Rcc, d8c: bool)
    ensures
      var r' := ExecAll(r, SelectHsiOps(d8c));
      && r'.ctlr == r.ctlr + {0} - {24, 19, 16} - {18}
      && r'.cfgr0 == r.cfgr0 - (LOW_HALF + if d8c then {24, 25, 26} else {24, 25, 26, 27})
      && r'.exten == r.exten && r'.intr == r.intr && r'.cfgr2 == r.cfgr2
  {
    ExecFour(r, CtlrOr({HSION}), CfgrClear(LOW_HALF + if d8c then {24, 25, 26} else {24, 25, 26, 27}),
             CtlrClear({PLLON, CSSON, HSEON}), CtlrClear({HSEBYP}));
  }

  lemma ExecFinish(r: Rcc, d8c: bool)
    ensures
      var r' := ExecAll(r, FinishOps(d8c));
      && r'.ctlr == (if d8c then r.ctlr - {28, 26} else r.ctlr)
      && r'.cfgr0 == r.cfgr0 - {16, 17, 18, 19, 20, 21, 22}
      && r'.exten == r.exten && r'.cfgr2 == (if d8c then {} else r.cfgr2)
      && r'.intr == if d8c then {16, 17, 18, 19, 20, 21, 22, 23} else {16, 17, 18, 19, 20, 23}
  {
    if d8c {
      ExecFour(r, CfgrClear({16, 17, 18, 19, 20, 21, 22}), CtlrClear({28, 26}),
               SetIntr({16, 17, 18, 19, 20, 21, 22, 23}), SetCfgr2({}));
    } else {
      ExecTwo(r, CfgrClear({16, 17, 18, 19, 20, 21, 22}), SetIntr({16, 17, 18, 19, 20, 23}));
    }
  }

  /** The words of the code, as the bits they set or clear. */
  lemma SystemInitWords()
    ensures 0xFFFF_FFFF - 0xFEF6_FFFF == Pow2(24) + Pow2(19) + Pow2(16)
    ensures 0xFFFF_FFFF - 0xFFFB_FFFF == Pow2(18)
    ensures 0xFFFF_FFFF - 0xEBFF_FFFF == Pow2(28) + Pow2(26)
    ensures 0xFFFF_FFFF - 0xF8FF_0000 == Pow2(26) + Pow2(25) + Pow2(24) + (Pow2(16) - 1)
    ensures 0xFFFF_FFFF - 0xF0FF_0000 == Pow2(27) + Pow2(26) + Pow2(25) + Pow2(24) + (Pow2(16) - 1)
    ensures 0xFFFF_FFFF - 0xFF80_FFFF == Pow2(23) - Pow2(16)
    ensures 0x00FF_0000 == Pow2(24) - Pow2(16)
    ensures 0x009F_0000 == Pow2(23) + (Pow2(21) - Pow2(16))
  {
    assert Pow2(8) == 256 && Pow2(10) == 4 * Pow2(8) && Pow2(12) == 4 * Pow2(10);
    assert Pow2(14) == 4 * Pow2(12) && Pow2(16) == 4 * Pow2(14);
    assert Pow2(18) == 4 * Pow2(16) && Pow2(19) == 2 * Pow2(18) && Pow2(21) == 4 * Pow2(19);
    assert Pow2(23) == 4 * Pow2(21) && Pow2(24) == 2 * Pow2(23) && Pow2(25) == 2 * Pow2(24);
    assert Pow2(26) == 2 * Pow2(25) && Pow2(27) == 2 * Pow2(26) && Pow2(28) == 2 * Pow2(27);
  }

  /** The registers after SystemInit, from arbitrary contents. */
  lemma InitRegisters(r: Rcc, d8c: bool)
    ensures
      var r' := ExecAll(r, InitOps(d8c));
      && r'.ctlr == r.ctlr + {0} - {24, 19, 16} - {18} - (if d8c then {28, 26} else {})
      && r'.cfgr0 == r.cfgr0 - ({0, 1, 2, 3, 4, 5, 6, 7, 8, 9, 10, 11, 12, 13, 14, 15}
                                  + if d8c then {24, 25, 26} else {24, 25, 26, 27})
                     - {16, 17, 18, 19, 20, 21, 22}
      && r'.intr == (if d8c then {16, 17, 18, 19, 20, 21, 22, 23} else {16, 17, 18, 19, 20, 23})
      && r'.cfgr2 == (if d8c then {} else r.cfgr2)
      && r'.exten == r.exten
  {
    ExecSelectHsi(r, d8c);
    ExecFinish(ExecAll(r, SelectHsiOps(d8c)), d8c);
    ExecAppend(r, SelectHsiOps(d8c), FinishOps(d8c));
  }

  // ---- The presets ----

  lemma ExecPll(r: Rcc, source: Bits, code: Bits)
    requires 16 !in r.cfgr0 && 17 !in r.cfgr0 && 18 !in r.cfgr0 && 19 !in r.cfgr0 && 20 !in r.cfgr0 && 21 !in r.cfgr0
    requires 0 !in r.cfgr0 && 1 !in r.cfgr0 && source <= {16} && code <= {18, 19, 20, 21}
    ensures
      var r' := ExecAll(r, PllOps(source, code));
      r'.ctlr == r.ctlr + {24} && r'.cfgr0 == r.cfgr0 + {10} + (source + code) + {1}
      && r'.exten == r.exten && r'.intr == r.intr && r'.cfgr2 == r.cfgr2
  {
    var a: seq<Op> := [CfgrOr({}), CfgrOr({}), CfgrOr(PPRE1_DIV2)];
    var b := [CfgrClear(PLL_INPUT), CfgrOr(source + code)];
    var c := [CtlrOr({PLLON}), SeePll, CfgrClear(SW), CfgrOr({1})];
    DividersAreSafe(r, PPRE1_DIV2);
    var r1 := r.(cfgr0 := r.cfgr0 + {10});
    ExecTwo(r1, b[0], b[1]);
    assert r1.cfgr0 - PLL_INPUT == r1.cfgr0;
    var r2 := r1.(cfgr0 := r1.cfgr0 + (source + code));
    ExecFour(r2, c[0], c[1], c[2], c[3]);
    assert r2.cfgr0 - SW == r2.cfgr0;
    ExecAppend(r, a, b);
    ExecAppend(r, a + b, c);
  }

  lemma ExecHse(r: Rcc)
    requires 0 !in r.cfgr0 && 1 !in r.cfgr0
    ensures ExecAll(r, ReadyOps(Hse, false)) == r.(cfgr0 := r.cfgr0 + {0})
  {
    DividersAreSafe(r, {});
    assert r.cfgr0 + {} == r.cfgr0 && r.cfgr0 - SW == r.cfgr0;
    ExecTwo(r, CfgrClear(SW), CfgrOr({0}));
    ExecAppend(r, [CfgrOr({}), CfgrOr({}), CfgrOr({})], [CfgrClear(SW), CfgrOr({0})]);
    assert [CfgrOr({}), CfgrOr({}), CfgrOr({})] + [CfgrClear(SW), CfgrOr({0})] == ReadyOps(Hse, false);
  }

  /** The bits of CFGR0 that a preset run on the state of SystemInit clears or leaves clear. */
  predicate Reset(cfgr0: Bits) {
    && 0 !in cfgr0 && 1 !in cfgr0 && 4 !in cfgr0 && 5 !in cfgr0 && 6 !in cfgr0 && 7 !in cfgr0
    && 8 !in cfgr0 && 9 !in cfgr0 && 10 !in cfgr0 && 11 !in cfgr0 && 12 !in cfgr0 && 13 !in cfgr0
    && 16 !in cfgr0 && 17 !in cfgr0 && 18 !in cfgr0 && 19 !in cfgr0 && 20 !in cfgr0 && 21 !in cfgr0
  }

  /** CFGR0 after a preset: buses, PLL source and SW, bit by bit. */
  predicate PresetCfgr(p: Preset, ready: bool, cfgr0: Bits) {
    var pll := !p.Hse? && (ready || p.HsiPll?);
    && 4 !in cfgr0 && 5 !in cfgr0 && 6 !in cfgr0 && 7 !in cfgr0                       // HPRE: 1
    && 8 !in cfgr0 && 9 !in cfgr0 && (10 in cfgr0 <==> pll)                           // PPRE1: 2 with the PLL, or 1
    && 11 !in cfgr0 && 12 !in cfgr0 && 13 !in cfgr0                                   // PPRE2: 1
    && (16 in cfgr0 <==> p.HsePll? && ready) && 17 !in cfgr0                          // PLLSRC, PLLXTPRE
    && (1 in cfgr0 <==> pll) && (0 in cfgr0 <==> p.Hse? && ready)                     // SW
  }

  lemma PllBits(c: Bits, p: Preset, d8c: bool, ready: bool, source: Bits)
    requires Reset(c) && !p.Hse? && (ready || p.HsiPll?) && source == if p.HsePll? then {16} else {}
    ensures PresetCfgr(p, ready, c + {10} + (source + MullCode(p.mul, d8c)) + {1})
  {
    assert MullCode(p.mul, d8c) <= {18, 19, 20, 21};
  }

  /** The registers after a preset, against those before. */
  predicate PresetLeaves(r: Rcc, p: Preset, ready: bool, r': Rcc) {
    && PresetCfgr(p, ready, r'.cfgr0)
    && r'.ctlr == r.ctlr + (if p.HsiPll? then {} else {16}) + (if !p.Hse? && (ready || p.HsiPll?) then {24} else {})
    && r'.exten == (if p.HsiPll? then r.exten + {4} else r.exten)
    && r'.intr == r.intr && r'.cfgr2 == r.cfgr2
  }

  lemma PresetRegisters(r: Rcc, p: Preset, d8c: bool, ready: bool)
    requires Reset(r.cfgr0)
    ensures PresetLeaves(r, p, ready, ExecAll(r, PresetOps(p, d8c, ready)))
  {
    if p.HsiPll? {
      HsiPllRegisters(r, p, d8c, ready);
    } else if ready {
      HseRegisters(r, p, d8c);
    } else {
      NotReadyRegisters(r, p, d8c);
    }
  }

  lemma NotReadyRegisters(r: Rcc, p: Preset, d8c: bool)
    requires Reset(r.cfgr0) && !p.HsiPll?
    ensures PresetLeaves(r, p, false, ExecAll(r, PresetOps(p, d8c, false)))
  {
    ExecNext(r, [], CtlrOr({HSEON}));
    assert [] + [CtlrOr({HSEON})] == [CtlrOr({HSEON})];
  }

  lemma InitResets(r: Rcc, d8c: bool)
    ensures Reset(ExecAll(r, InitOps(d8c)).cfgr0)
  {
    InitRegisters(r, d8c);
  }

  /** Main result on the registers: after SystemInit and any preset, from arbitrary contents, the AHB and the
      fast APB bus run undivided, the slow APB bus at half speed exactly when the PLL was selected, the oscillator
      is on exactly for the HSE presets and the PLL exactly when selected, bypass and clock security off. */
  lemma BootRegisters(r: Rcc, p: Preset, d8c: bool, ready: bool)
    ensures
      var r' := ExecAll(r, InitOps(d8c) + PresetOps(p, d8c, ready));
      && PresetCfgr(p, ready, r'.cfgr0)
      && r'.ctlr == (r.ctlr + {0} - {24, 19, 16} - {18} - if d8c then {28, 26} else {})
                    + (if p.HsiPll? then {} else {16}) + (if !p.Hse? && (ready || p.HsiPll?) then {24} else {})
      && r'.exten == (if p.HsiPll? then r.exten + {4} else r.exten)
      && r'.intr == (if d8c then {16, 17, 18, 19, 20, 21, 22, 23} else {16, 17, 18, 19, 20, 23})
      && r'.cfgr2 == (if d8c then {} else r.cfgr2)
  {
    InitRegisters(r, d8c);
    InitResets(r, d8c);
    PresetRegisters(ExecAll(r, InitOps(d8c)), p, d8c, ready);
    ExecAppend(r, InitOps(d8c), PresetOps(p, d8c, ready));
  }

  lemma HsiPllRegisters(r: Rcc, p: Preset, d8c: bool, ready: bool)
    requires Reset(r.cfgr0) && p.HsiPll?
    ensures PresetLeaves(r, p, ready, ExecAll(r, PresetOps(p, d8c, ready)))
  {
    var r1 := r.(exten := r.exten + {4});
    ExecNext(r, [], ExtenOr({PLL_HSI_PRE}));
    assert [] + [ExtenOr({PLL_HSI_PRE})] == [ExtenOr({PLL_HSI_PRE})];
    ExecPll(r1, {}, MullCode(p.mul, d8c));
    PllBits(r.cfgr0, p, d8c, ready, {});
    ExecAppend(r, [ExtenOr({PLL_HSI_PRE})], ReadyOps(p, d8c));
  }

  lemma HseRegisters(r: Rcc, p: Preset, d8c: bool)
    requires Reset(r.cfgr0) && !p.HsiPll?
    ensures PresetLeaves(r, p, true, ExecAll(r, PresetOps(p, d8c, true)))
  {
    var o := [CtlrOr({HSEON}), SeeHse];
    ExecTwo(r, o[0], o[1]);
    var r1 := ExecAll(r, o);
    if p.Hse? {
      ExecHse(r1);
    } else {
      ExecPll(r1, {16}, MullCode(p.mul, d8c));
      PllBits(r.cfgr0, p, d8c, true, {16});
    }
    ExecAppend(r, o, ReadyOps(p, d8c));
  }
}
