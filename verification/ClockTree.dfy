/** The clock tree: SystemInit, the thirteen SetSysClockTo* presets and SystemCoreClockUpdate, for both the
    CH32V30x_D8 and the CH32V30x_D8C encodings of the PLL multiplier. */
module ClockTree {
  import opened Words

  const HSE_VALUE := 8_000_000
  const HSI_VALUE := 8_000_000
  const HSE_STARTUP_TIMEOUT := 0x1000

  // CTLR
  const HSION: nat := 0
  const HSEON: nat := 16
  const HSERDY: nat := 17
  const HSEBYP: nat := 18
  const CSSON: nat := 19
  const PLLON: nat := 24
  const PLLRDY: nat := 25
  const CTLR_FLAGS: Bits := {1, HSERDY, PLLRDY}     // set by the hardware only
  // CFGR0
  const SW: Bits := {1, 0}
  const SWS: Bits := {3, 2}                          // set by the hardware only
  const PPRE1_DIV2: Bits := {10}
  const PLLSRC: nat := 16
  const PLLXTPRE: nat := 17
  const PLLMULL: Bits := {21, 20, 19, 18}
  const PLL_INPUT: Bits := {PLLSRC, PLLXTPRE} + PLLMULL
  // EXTEN_CTR
  const PLL_HSI_PRE: nat := 4

  /** The software-writable part of the registers, and which sources have been seen ready since enabled. */
  datatype Rcc = Rcc(ctlr: Bits, cfgr0: Bits, intr: Bits, cfgr2: Bits, exten: Bits, hseSeen: bool, pllSeen: bool)

  /** One write, or one successful wait for a ready flag. */
  datatype Op =
    | CtlrOr(mask: Bits)
    | CtlrClear(mask: Bits)     // CTLR &= ~mask
    | CfgrOr(mask: Bits)
    | CfgrClear(mask: Bits)
    | ExtenOr(mask: Bits)
    | SetIntr(value: Bits)
    | SetCfgr2(value: Bits)
    | SeeHse
    | SeePll

  function Exec(r: Rcc, op: Op): Rcc {
    match op
    case CtlrOr(mask) => r.(ctlr := r.ctlr + mask)
    case CtlrClear(mask) =>
      r.(ctlr := r.ctlr - mask, hseSeen := r.hseSeen && HSEON !in mask, pllSeen := r.pllSeen && PLLON !in mask)
    case CfgrOr(mask) => r.(cfgr0 := r.cfgr0 + mask)
    case CfgrClear(mask) => r.(cfgr0 := r.cfgr0 - mask)
    case ExtenOr(mask) => r.(exten := r.exten + mask)
    case SetIntr(value) => r.(intr := value)
    case SetCfgr2(value) => r.(cfgr2 := value)
    case SeeHse => r.(hseSeen := true)
    case SeePll => r.(pllSeen := true)
  }

  function ExecAll(r: Rcc, ops: seq<Op>): Rcc {
    if ops == [] then r else Exec(ExecAll(r, ops[..|ops| - 1]), ops[|ops| - 1])
  }

  lemma ExecNext(r: Rcc, ops: seq<Op>, op: Op)
    ensures ExecAll(r, ops + [op]) == Exec(ExecAll(r, ops), op)
  {
    assert (ops + [op])[..|ops|] == ops;
  }

  // ---- The programs ----

  /** What SystemInit writes: the AND masks 0xF8FF0000 (D8C) or 0xF0FF0000, 0xFEF6FFFF, 0xFFFBFFFF,
      0xFF80FFFF and, on D8C, 0xEBFFFFFF, each by the bits it clears. */
  const LOW_HALF: Bits := {0, 1, 2, 3, 4, 5, 6, 7, 8, 9, 10, 11, 12, 13, 14, 15}

  function InitOps(d8c: bool): seq<Op> {
    SelectHsiOps(d8c) + FinishOps(d8c)
  }

  function SelectHsiOps(d8c: bool): seq<Op> {
    [CtlrOr({HSION}), CfgrClear(LOW_HALF + if d8c then {24, 25, 26} else {24, 25, 26, 27}),
     CtlrClear({PLLON, CSSON, HSEON}), CtlrClear({HSEBYP})]
  }

  function FinishOps(d8c: bool): seq<Op> {
    if d8c then
      [CfgrClear({16, 17, 18, 19, 20, 21, 22}), CtlrClear({28, 26}), SetIntr({16, 17, 18, 19, 20, 21, 22, 23}),
       SetCfgr2({})]
    else [CfgrClear({16, 17, 18, 19, 20, 21, 22}), SetIntr({16, 17, 18, 19, 20, 23})]
  }

  datatype Multiplier = X6 | X7 | X9 | X12 | X15 | X18

  /** Multiplier and source; `Hse` uses the oscillator without the PLL. */
  datatype Preset = Hse | HsePll(mul: Multiplier) | HsiPll(mul: Multiplier)

  function Factor(mul: Multiplier): nat {
    match mul case X6 => 6 case X7 => 7 case X9 => 9 case X12 => 12 case X15 => 15 case X18 => 18
  }

  /** RCC_PLLMULLn and RCC_PLLMULLn_EXTEN. */
  function MullCode(mul: Multiplier, d8c: bool): Bits {
    match mul
    case X6 => {20}
    case X7 => {20, 18}
    case X9 => {20, 19, 18}
    case X12 => {21, 19}
    case X15 => if d8c then {21, 20, 19} else {21, 20, 18}
    case X18 => if d8c then {} else {21, 20, 19, 18}
  }

  /** From the divider settings to the selection of the PLL. */
  function PllOps(source: Bits, code: Bits): seq<Op> {
    [CfgrOr({}), CfgrOr({}), CfgrOr(PPRE1_DIV2)]
    + [CfgrClear(PLL_INPUT), CfgrOr(source + code)]
    + [CtlrOr({PLLON}), SeePll, CfgrClear(SW), CfgrOr({1})]
  }

  /** What a preset does once its oscillator is ready. */
  function ReadyOps(p: Preset, d8c: bool): seq<Op> {
    match p
    case Hse => [CfgrOr({}), CfgrOr({}), CfgrOr({}), CfgrClear(SW), CfgrOr({0})]
    case HsePll(mul) => PllOps({PLLSRC}, MullCode(mul, d8c))
    case HsiPll(mul) => PllOps({}, MullCode(mul, d8c))
  }

  /** A whole preset; `ready` says whether the external oscillator came up. */
  function PresetOps(p: Preset, d8c: bool, ready: bool): seq<Op> {
    if p.HsiPll? then [ExtenOr({PLL_HSI_PRE})] + ReadyOps(p, d8c)
    else if ready then [CtlrOr({HSEON}), SeeHse] + ReadyOps(p, d8c)
    else [CtlrOr({HSEON})]
  }

  /** The frequency in the preset's name. */
  function Frequency(p: Preset): nat {
    match p
    case Hse => 8_000_000
    case _ =>
      match p.mul
      case X6 => 48_000_000
      case X7 => 56_000_000
      case X9 => 72_000_000
      case X12 => 96_000_000
      case X15 => 120_000_000
      case X18 => 144_000_000
  }

  // ---- Safety at every write ----

  /** The two bits of SW: 0 selects HSI, 1 HSE, 2 the PLL. */
  function Selected(r: Rcc): nat {
    (if 0 in r.cfgr0 then 1 else 0) + (if 1 in r.cfgr0 then 2 else 0)
  }

  predicate SourceEnabled(r: Rcc) {
    match Selected(r)
    case 0 => HSION in r.ctlr
    case 1 => HSEON in r.ctlr
    case 2 => PLLON in r.ctlr
    case _ => false
  }

  /** PLLSRC, PLLXTPRE and PLLMULL agree. */
  predicate SamePllInput(a: Bits, b: Bits) {
    && (16 in a <==> 16 in b) && (17 in a <==> 17 in b) && (18 in a <==> 18 in b)
    && (19 in a <==> 19 in b) && (20 in a <==> 20 in b) && (21 in a <==> 21 in b)
  }

  /** No write may disable the source in use, reconfigure a running PLL or oscillator, or select a source
      that has not been seen ready. */
  predicate Safe(r: Rcc, op: Op) {
    var r' := Exec(r, op);
    && (SourceEnabled(r) ==> SourceEnabled(r'))
    && (PLLON in r.ctlr ==> SamePllInput(r.cfgr0, r'.cfgr0))
    && (PLLON in r.ctlr ==> (PLL_HSI_PRE in r'.exten <==> PLL_HSI_PRE in r.exten))
    && (HSEON in r.ctlr ==> (HSEBYP in r'.ctlr <==> HSEBYP in r.ctlr))
    && (Selected(r') != Selected(r) && Selected(r') == 1 ==> HSEON in r.ctlr && r.hseSeen)
    && (Selected(r') != Selected(r) && Selected(r') == 2 ==> PLLON in r.ctlr && r.pllSeen)
  }

  predicate AllSafe(r: Rcc, ops: seq<Op>) {
    ops == [] || (AllSafe(r, ops[..|ops| - 1]) && Safe(ExecAll(r, ops[..|ops| - 1]), ops[|ops| - 1]))
  }

  lemma SafeNext(r: Rcc, ops: seq<Op>, op: Op)
    requires AllSafe(r, ops) && Safe(ExecAll(r, ops), op)
    ensures AllSafe(r, ops + [op]) && ExecAll(r, ops + [op]) == Exec(ExecAll(r, ops), op)
  {
    assert (ops + [op])[..|ops|] == ops;
  }

  lemma {:induction false} SafeAppend(r: Rcc, a: seq<Op>, b: seq<Op>)
    requires AllSafe(r, a) && AllSafe(ExecAll(r, a), b)
    ensures AllSafe(r, a + b) && ExecAll(r, a + b) == ExecAll(ExecAll(r, a), b)
  {
    if b == [] {
      assert a + b == a;
    } else {
      var init := b[..|b| - 1];
      SafeAppend(r, a, init);
      SafeNext(r, a + init, b[|b| - 1]);
      assert a + b == a + init + [b[|b| - 1]];
    }
  }

  lemma SafeFirst(r: Rcc, op: Op)
    requires Safe(r, op)
    ensures AllSafe(r, [op]) && ExecAll(r, [op]) == Exec(r, op)
  {
    assert [op] == [] + [op];
    SafeNext(r, [], op);
  }

  /** SW and HPRE are clear: HSI drives SYSCLK, undivided. */
  predicate OnHsi(r: Rcc) {
    && HSION in r.ctlr && PLLON !in r.ctlr
    && 0 !in r.cfgr0 && 1 !in r.cfgr0 && 4 !in r.cfgr0 && 5 !in r.cfgr0 && 6 !in r.cfgr0 && 7 !in r.cfgr0
  }

  /** ... and the PLL input is back at its reset setting. */
  predicate Configurable(r: Rcc) {
    OnHsi(r) && SamePllInput(r.cfgr0, {})
  }

  /** The first four writes select HSI before anything is switched off. */
  lemma SelectHsiFirst(r: Rcc, low: Bits)
    requires LOW_HALF <= low && low !! PLL_INPUT
    ensures
      var ops := [CtlrOr({HSION}), CfgrClear(low), CtlrClear({PLLON, CSSON, HSEON}), CtlrClear({HSEBYP})];
      var r' := ExecAll(r, ops);
      && AllSafe(r, ops)
      && OnHsi(r') && HSEON !in r'.ctlr
  {
    var o1 := [CtlrOr({HSION})];
    SafeFirst(r, o1[0]);
    SafeNext(r, o1, CfgrClear(low));
    var o2 := o1 + [CfgrClear(low)];
    SafeNext(r, o2, CtlrClear({PLLON, CSSON, HSEON}));
    var o3 := o2 + [CtlrClear({PLLON, CSSON, HSEON})];
    SafeNext(r, o3, CtlrClear({HSEBYP}));
    assert o3 + [CtlrClear({HSEBYP})]
        == [CtlrOr({HSION}), CfgrClear(low), CtlrClear({PLLON, CSSON, HSEON}), CtlrClear({HSEBYP})];
  }

  lemma FinishInit(r: Rcc, d8c: bool)
    requires OnHsi(r) && HSEON !in r.ctlr
    ensures
      var r' := ExecAll(r, FinishOps(d8c));
      AllSafe(r, FinishOps(d8c)) && Configurable(r') && HSEON !in r'.ctlr
  {
    var o1 := [CfgrClear({16, 17, 18, 19, 20, 21, 22})];
    SafeFirst(r, o1[0]);
    if d8c {
      FinishInitD8c(ExecAll(r, o1));
      SafeAppend(r, o1, FinishOps(d8c)[1..]);
      assert o1 + FinishOps(d8c)[1..] == FinishOps(d8c);
    } else {
      SafeNext(r, o1, SetIntr({16, 17, 18, 19, 20, 23}));
      assert o1 + [SetIntr({16, 17, 18, 19, 20, 23})] == FinishOps(d8c);
    }
  }

  lemma FinishInitD8c(r: Rcc)
    requires Configurable(r) && HSEON !in r.ctlr
    ensures
      var ops, r' := FinishOps(true)[1..], ExecAll(r, FinishOps(true)[1..]);
      AllSafe(r, ops) && Configurable(r') && HSEON !in r'.ctlr
  {
    var o2 := [CtlrClear({28, 26})];
    SafeFirst(r, o2[0]);
    SafeNext(r, o2, SetIntr({16, 17, 18, 19, 20, 21, 22, 23}));
    var o3 := o2 + [SetIntr({16, 17, 18, 19, 20, 21, 22, 23})];
    SafeNext(r, o3, SetCfgr2({}));
    assert o3 + [SetCfgr2({})] == FinishOps(true)[1..];
  }

  lemma InitIsSafe(r: Rcc, d8c: bool)
    ensures AllSafe(r, InitOps(d8c))
    ensures Configurable(ExecAll(r, InitOps(d8c))) && HSEON !in ExecAll(r, InitOps(d8c)).ctlr
  {
    SelectHsiFirst(r, LOW_HALF + if d8c then {24, 25, 26} else {24, 25, 26, 27});
    FinishInit(ExecAll(r, SelectHsiOps(d8c)), d8c);
    SafeAppend(r, SelectHsiOps(d8c), FinishOps(d8c));
  }

  /** The divider settings: HPRE and PPRE2 stay at 1. */
  lemma DividersAreSafe(r: Rcc, ppre1: Bits)
    requires ppre1 <= PPRE1_DIV2
    ensures
      var ops := [CfgrOr({}), CfgrOr({}), CfgrOr(ppre1)];
      AllSafe(r, ops) && ExecAll(r, ops) == r.(cfgr0 := r.cfgr0 + ppre1)
  {
    assert r.cfgr0 + {} == r.cfgr0;
    var o1: seq<Op> := [CfgrOr({})];
    SafeFirst(r, o1[0]);
    SafeNext(r, o1, CfgrOr({}));
    var o2 := o1 + [CfgrOr({})];
    SafeNext(r, o2, CfgrOr(ppre1));
    assert o2 + [CfgrOr(ppre1)] == [CfgrOr({}), CfgrOr({}), CfgrOr(ppre1)];
  }

  /** The PLL input is configured while the PLL is off. */
  lemma PllInputIsSafe(r: Rcc, input: Bits)
    requires Configurable(r) && input <= PLL_INPUT
    ensures
      var ops := [CfgrClear(PLL_INPUT), CfgrOr(input)];
      AllSafe(r, ops) && ExecAll(r, ops) == r.(cfgr0 := r.cfgr0 + input)
  {
    assert r.cfgr0 - PLL_INPUT == r.cfgr0;
    var o1 := [CfgrClear(PLL_INPUT)];
    SafeFirst(r, o1[0]);
    SafeNext(r, o1, CfgrOr(input));
    assert o1 + [CfgrOr(input)] == [CfgrClear(PLL_INPUT), CfgrOr(input)];
  }

  /** The PLL is started and seen ready ... */
  lemma StartPllIsSafe(r: Rcc)
    requires HSION in r.ctlr && 0 !in r.cfgr0 && 1 !in r.cfgr0
    ensures
      var ops := [CtlrOr({PLLON}), SeePll];
      AllSafe(r, ops) && ExecAll(r, ops) == r.(ctlr := r.ctlr + {PLLON}, pllSeen := true)
  {
    SafeFirst(r, CtlrOr({PLLON}));
    SafeNext(r, [CtlrOr({PLLON})], SeePll);
    assert [CtlrOr({PLLON})] + [SeePll] == [CtlrOr({PLLON}), SeePll];
  }

  /** ... and only then selected. */
  lemma SelectPllIsSafe(r: Rcc)
    requires HSION in r.ctlr && PLLON in r.ctlr && r.pllSeen && 0 !in r.cfgr0 && 1 !in r.cfgr0
    ensures
      var ops := [CfgrClear(SW), CfgrOr({1})];
      AllSafe(r, ops) && ExecAll(r, ops) == r.(cfgr0 := r.cfgr0 + {1})
  {
    assert r.cfgr0 - SW == r.cfgr0;
    SafeFirst(r, CfgrClear(SW));
    SafeNext(r, [CfgrClear(SW)], CfgrOr({1}));
    assert [CfgrClear(SW)] + [CfgrOr({1})] == [CfgrClear(SW), CfgrOr({1})];
  }

  /** The start-up of a PLL whose input is set, up to its selection. */
  lemma BringUpPllIsSafe(r: Rcc)
    requires HSION in r.ctlr && 0 !in r.cfgr0 && 1 !in r.cfgr0
    ensures
      var ops := [CtlrOr({PLLON}), SeePll, CfgrClear(SW), CfgrOr({1})];
      var r' := ExecAll(r, ops);
      AllSafe(r, ops) && r'.exten == r.exten && r'.cfgr0 == r.cfgr0 + {1}
  {
    var a, b := [CtlrOr({PLLON}), SeePll], [CfgrClear(SW), CfgrOr({1})];
    StartPllIsSafe(r);
    SelectPllIsSafe(ExecAll(r, a));
    SafeAppend(r, a, b);
    assert a + b == [CtlrOr({PLLON}), SeePll, CfgrClear(SW), CfgrOr({1})];
  }

  lemma PllIsSafe(r: Rcc, source: Bits, code: Bits)
    requires Configurable(r) && source <= {PLLSRC} && code <= PLLMULL
    ensures
      var r' := ExecAll(r, PllOps(source, code));
      && AllSafe(r, PllOps(source, code))
      && r'.exten == r.exten && r'.cfgr0 == r.cfgr0 + PPRE1_DIV2 + (source + code) + {1}
  {
    var a := [CfgrOr({}), CfgrOr({}), CfgrOr(PPRE1_DIV2)];
    var b := [CfgrClear(PLL_INPUT), CfgrOr(source + code)];
    var c := [CtlrOr({PLLON}), SeePll, CfgrClear(SW), CfgrOr({1})];
    var r1 := r.(cfgr0 := r.cfgr0 + PPRE1_DIV2);
    DividersAreSafe(r, PPRE1_DIV2);
    PllInputIsSafe(r1, source + code);
    SafeAppend(r, a, b);
    BringUpPllIsSafe(r1.(cfgr0 := r1.cfgr0 + (source + code)));
    SafeAppend(r, a + b, c);
  }

  lemma HseIsSafe(r: Rcc)
    requires Configurable(r) && HSEON in r.ctlr && r.hseSeen
    ensures
      var ops := [CfgrOr({}), CfgrOr({}), CfgrOr({}), CfgrClear(SW), CfgrOr({0})];
      AllSafe(r, ops) && ExecAll(r, ops) == r.(cfgr0 := r.cfgr0 + {0})
  {
    var a: seq<Op> := [CfgrOr({}), CfgrOr({}), CfgrOr({})];
    var b := [CfgrClear(SW), CfgrOr({0})];
    DividersAreSafe(r, {});
    assert r.cfgr0 + {} == r.cfgr0 && r.cfgr0 - SW == r.cfgr0;
    SafeFirst(r, b[0]);
    SafeNext(r, [CfgrClear(SW)], CfgrOr({0}));
    assert [CfgrClear(SW)] + [CfgrOr({0})] == b;
    SafeAppend(r, a, b);
    assert a + b == [CfgrOr({}), CfgrOr({}), CfgrOr({}), CfgrClear(SW), CfgrOr({0})];
  }

  /** What CFGR0 adds for a preset. */
  function Adds(p: Preset, d8c: bool): Bits {
    match p
    case Hse => {0}
    case HsePll(mul) => PPRE1_DIV2 + ({PLLSRC} + MullCode(mul, d8c)) + {1}
    case HsiPll(mul) => PPRE1_DIV2 + MullCode(mul, d8c) + {1}
  }

  lemma AddsInOrder(c: Bits, p: Preset, d8c: bool)
    ensures p.HsePll? ==> c + PPRE1_DIV2 + ({PLLSRC} + MullCode(p.mul, d8c)) + {1} == c + Adds(p, d8c)
    ensures p.HsiPll? ==> c + PPRE1_DIV2 + ({} + MullCode(p.mul, d8c)) + {1} == c + Adds(p, d8c)
  {
  }

  /** A preset run on the state SystemInit leaves. */
  lemma PresetIsSafe(r: Rcc, p: Preset, d8c: bool, ready: bool)
    requires Configurable(r) && HSEON !in r.ctlr
    ensures
      var r' := ExecAll(r, PresetOps(p, d8c, ready));
      && AllSafe(r, PresetOps(p, d8c, ready))
      && r'.cfgr0 == (if ready || p.HsiPll? then r.cfgr0 + Adds(p, d8c) else r.cfgr0)
      && (p.HsiPll? ==> PLL_HSI_PRE in r'.exten)
  {
    AddsInOrder(r.cfgr0, p, d8c);
    if p.HsiPll? {
      var o := [ExtenOr({PLL_HSI_PRE})];
      SafeFirst(r, o[0]);
      PllIsSafe(ExecAll(r, o), {}, MullCode(p.mul, d8c));
      SafeAppend(r, o, ReadyOps(p, d8c));
    } else {
      SafeFirst(r, CtlrOr({HSEON}));
      if ready {
        SafeNext(r, [CtlrOr({HSEON})], SeeHse);
        var o := [CtlrOr({HSEON}), SeeHse];
        assert [CtlrOr({HSEON})] + [SeeHse] == o;
        var r1 := ExecAll(r, o);
        if p.Hse? { HseIsSafe(r1); } else { PllIsSafe(r1, {PLLSRC}, MullCode(p.mul, d8c)); }
        SafeAppend(r, o, ReadyOps(p, d8c));
      }
    }
  }

  /** Main result on switching: from any register contents, SystemInit followed by any preset is safe at
      every single write, whether or not the external oscillator comes up. */
  lemma BootIsSafe(r: Rcc, p: Preset, d8c: bool, ready: bool)
    ensures AllSafe(r, InitOps(d8c) + PresetOps(p, d8c, ready))
  {
    InitIsSafe(r, d8c);
    var r1 := ExecAll(r, InitOps(d8c));
    PresetIsSafe(r1, p, d8c, ready);
    SafeAppend(r, InitOps(d8c), PresetOps(p, d8c, ready));
  }

  // ---- SystemCoreClockUpdate ----

  /** The PLLMULL field as a number. */
  function MullField(cfgr0: Bits): nat {
    (if 18 in cfgr0 then 1 else 0) + (if 19 in cfgr0 then 2 else 0)
    + (if 20 in cfgr0 then 4 else 0) + (if 21 in cfgr0 then 8 else 0)
  }

  /** The HPRE field as a number. */
  function HpreField(cfgr0: Bits): nat {
    (if 4 in cfgr0 then 1 else 0) + (if 5 in cfgr0 then 2 else 0)
    + (if 6 in cfgr0 then 4 else 0) + (if 7 in cfgr0 then 8 else 0)
  }

  const AHB_PRESC_TABLE: seq<nat> := [0, 0, 0, 0, 0, 0, 0, 0, 1, 2, 3, 4, 6, 7, 8, 9]

  /** `x >> k`. */
  function ShiftRight(x: nat, k: nat): nat {
    if k == 0 then x else ShiftRight(x / 2, k - 1)
  }

  /** The PLL multiplier, doubled so that 6.5 is a number. */
  function DoubledMultiplier(field: nat, d8c: bool): nat {
    if d8c then
      if field == 0 then 36 else if field == 13 then 13 else if field == 14 then 30 else if field == 15 then 32
      else 2 * (field + 2)
    else if field == 15 then 36 else 2 * (field + 2)
  }

  /** The PLL input frequency. */
  function PllInput(cfgr0: Bits, exten: Bits): nat {
    if PLLSRC !in cfgr0 then if PLL_HSI_PRE in exten then HSI_VALUE else HSI_VALUE / 2
    else if PLLXTPRE in cfgr0 then HSE_VALUE / 2 else HSE_VALUE
  }

  /** SYSCLK before the AHB prescaler; `sws` is the source the hardware reports. */
  function SysClock(sws: nat, cfgr0: Bits, exten: Bits, d8c: bool): nat {
    if sws == 1 then HSE_VALUE
    else if sws == 2 then PllInput(cfgr0, exten) * DoubledMultiplier(MullField(cfgr0), d8c) / 2
    else HSI_VALUE
  }

  /** What SystemCoreClockUpdate computes. */
  function CoreClock(sws: nat, cfgr0: Bits, exten: Bits, d8c: bool): nat {
    ShiftRight(SysClock(sws, cfgr0, exten, d8c), AHB_PRESC_TABLE[HpreField(cfgr0)])
  }

  lemma {:induction false} ShiftIsDivision(x: nat, k: nat, d: nat)
    requires d == Pow2(k)
    ensures ShiftRight(x, k) == x / d
    decreases k
  {
    if k == 0 {
    } else {
      ShiftIsDivision(x / 2, k - 1, Pow2(k - 1));
      HalveFirst(x, Pow2(k - 1));
    }
  }

  lemma HalveFirst(x: nat, d: nat)
    requires d >= 1
    ensures x / 2 / d == x / (2 * d)
  {
    var q, r := x / 2 / d, x / 2 % d;
    assert x / 2 == d * q + r;
    var e := 2 * r + x % 2;
    assert x == (2 * d) * q + e && 0 <= e < 2 * d;
    QuotientIs(x, 2 * d, q, e);
  }

  lemma QuotientIs(x: nat, d: nat, q: nat, r: nat)
    requires r < d && x == d * q + r
    ensures x / d == q
  {
    var q', r' := x / d, x % d;
    assert d * (q' - q) == r - r';
    if q' != q { NoMultipleBetween(d, q' - q, r - r'); }
  }

  lemma NoMultipleBetween(d: int, k: int, e: int)
    requires d * k == e && -1 * d < e < d
    ensures k == 0
  {
    if k >= 1 { MultipleAtLeast(d, k); } else if k <= -1 { MultipleAtLeast(d, -k); }
  }

  lemma MultipleAtLeast(d: int, k: int)
    requires d >= 0 && k >= 1
    ensures d * k >= d
  {
  }

  // By field value, twice the n of RCC_PLLMULLn and of RCC_PLLMULLn_EXTEN, and the n of RCC_HPRE_DIVn.
  const PLL_DOUBLED_D8: seq<nat> := [4, 6, 8, 10, 12, 14, 16, 18, 20, 22, 24, 26, 28, 30, 32, 36]
  const PLL_DOUBLED_D8C: seq<nat> := [36, 6, 8, 10, 12, 14, 16, 18, 20, 22, 24, 26, 28, 13, 30, 32]
  const AHB_DIVISORS: seq<nat> := [1, 1, 1, 1, 1, 1, 1, 1, 2, 4, 8, 16, 64, 128, 256, 512]

  /** Four bits of a register as a number, the lowest first. */
  function Field4(register: Bits, low: nat): (n: nat)
    ensures n < 16
  {
    (if low in register then 1 else 0) + (if low + 1 in register then 2 else 0)
    + (if low + 2 in register then 4 else 0) + (if low + 3 in register then 8 else 0)
  }

  /** The PLL output, doubled, read off the registers with the tables. */
  function PllTwice(cfgr0: Bits, exten: Bits, d8c: bool): nat {
    var input := if 16 in cfgr0 then if 17 in cfgr0 then 4_000_000 else 8_000_000
                 else if 4 in exten then 8_000_000 else 4_000_000;
    input * (if d8c then PLL_DOUBLED_D8C else PLL_DOUBLED_D8)[Field4(cfgr0, 18)]
  }

  lemma PllTwiceIsComputed(cfgr0: Bits, exten: Bits, d8c: bool)
    ensures PllTwice(cfgr0, exten, d8c) == PllInput(cfgr0, exten) * DoubledMultiplier(MullField(cfgr0), d8c)
    ensures PllTwice(cfgr0, exten, d8c) <= 288_000_000
  {
    MultiplierTable(MullField(cfgr0), d8c);
  }

  lemma MultiplierTable(field: nat, d8c: bool)
    requires field < 16
    ensures DoubledMultiplier(field, d8c) == (if d8c then PLL_DOUBLED_D8C else PLL_DOUBLED_D8)[field] <= 36
  {
  }

  lemma DivisorTable(field: nat)
    requires field < 16
    ensures AHB_DIVISORS[field] == Pow2(AHB_PRESC_TABLE[field])
  {
    assert Pow2(4) == 16 && Pow2(6) == 64 && Pow2(7) == 128 && Pow2(8) == 256 && Pow2(9) == 512;
  }

  /** Main result on decoding: for all register contents the computed clock is the floor of the exact
      rational frequency that source, PLL input, multiplier table and divisor table give, and at most 144 MHz. */
  lemma CoreClockIsFloor(sws: nat, cfgr0: Bits, exten: Bits, d8c: bool)
    ensures
      var twice := if sws == 2 then PllTwice(cfgr0, exten, d8c) else 16_000_000;
      var f := CoreClock(sws, cfgr0, exten, d8c);
      f == twice / (2 * AHB_DIVISORS[Field4(cfgr0, 4)]) && f <= 144_000_000
  {
    var h, s := Field4(cfgr0, 4), SysClock(sws, cfgr0, exten, d8c);
    var twice := if sws == 2 then PllTwice(cfgr0, exten, d8c) else 16_000_000;
    PllTwiceIsComputed(cfgr0, exten, d8c);
    assert h == HpreField(cfgr0) && s == twice / 2;
    var d := AHB_DIVISORS[h];
    DivisorTable(h);
    ShiftIsDivision(s, AHB_PRESC_TABLE[h], d);
    HalveFirst(twice, d);
    DivideShrinks(s, d);
  }

  /** Instances on the D8C encoding with the PLL on the external oscillator: multiplier codes 1 and 13, and the
      internal oscillator halved on the D8 encoding with code 7. */
  lemma DecodedExamples(e: Bits)
    requires 4 !in e
    ensures CoreClock(2, {16, 18}, e, true) == 24_000_000
    ensures CoreClock(2, {16, 18, 20, 21}, e, true) == 52_000_000
    ensures CoreClock(2, {18, 19, 20}, e, false) == 36_000_000
  {
    CoreClockIsFloor(2, {16, 18}, e, true);
    CoreClockIsFloor(2, {16, 18, 20, 21}, e, true);
    CoreClockIsFloor(2, {18, 19, 20}, e, false);
  }

  lemma DivideShrinks(x: nat, d: nat)
    requires d >= 1
    ensures x / d <= x
  {
  }

  /** The source a preset ends on. */
  function SourceOf(p: Preset, ready: bool): nat {
    if p.HsiPll? then 2 else if !ready then 0 else if p.Hse? then 1 else 2
  }

  /** Main result on the round trip: whatever the registers held, after SystemInit and a preset SW selects the
      source of the preset, and once the hardware reports it SystemCoreClockUpdate finds the frequency of the
      preset; if the oscillator never came up, HSI. */
  lemma RoundTrip(r: Rcc, p: Preset, d8c: bool, ready: bool)
    ensures
      var r' := ExecAll(r, InitOps(d8c) + PresetOps(p, d8c, ready));
      && Selected(r') == SourceOf(p, ready)
      && CoreClock(Selected(r'), r'.cfgr0, r'.exten, d8c) == if ready || p.HsiPll? then Frequency(p) else 8_000_000
  {
    InitIsSafe(r, d8c);
    var r1 := ExecAll(r, InitOps(d8c));
    PresetIsSafe(r1, p, d8c, ready);
    SafeAppend(r, InitOps(d8c), PresetOps(p, d8c, ready));
    PresetClock(r1, ExecAll(r1, PresetOps(p, d8c, ready)), p, d8c, ready);
  }

  lemma PresetClock(r1: Rcc, r': Rcc, p: Preset, d8c: bool, ready: bool)
    requires Configurable(r1) && (p.HsiPll? ==> PLL_HSI_PRE in r'.exten)
    requires r'.cfgr0 == if ready || p.HsiPll? then r1.cfgr0 + Adds(p, d8c) else r1.cfgr0
    ensures Selected(r') == SourceOf(p, ready)
    ensures CoreClock(Selected(r'), r'.cfgr0, r'.exten, d8c) == if ready || p.HsiPll? then Frequency(p) else 8_000_000
  {
    assert HpreField(r'.cfgr0) == 0;
    if ready || p.HsiPll? {
      PresetDecodes(r1, r', p, d8c);
    }
  }

  lemma PresetDecodes(r1: Rcc, r': Rcc, p: Preset, d8c: bool)
    requires Configurable(r1) && r'.cfgr0 == r1.cfgr0 + Adds(p, d8c) && (p.HsiPll? ==> PLL_HSI_PRE in r'.exten)
    ensures SysClock(Selected(r'), r'.cfgr0, r'.exten, d8c) == Frequency(p)
  {
    if !p.Hse? {
      assert MullField(r'.cfgr0) == MullField(MullCode(p.mul, d8c));
      assert DoubledMultiplier(MullField(MullCode(p.mul, d8c)), d8c) == 2 * Factor(p.mul);
      assert Frequency(p) == 8_000_000 * Factor(p.mul);
      assert PLLSRC in r'.cfgr0 <==> p.HsePll?;
      assert PLLXTPRE !in r'.cfgr0;
    }
  }
}
