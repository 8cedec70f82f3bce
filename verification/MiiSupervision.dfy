/** Link supervision for an external MII PHY, run entirely from the main task.  `procTime`
    (LinkProcessingTime) is a deadline while the link is down and a count of bad samples while it is up. */
module MiiSupervision {
  import opened Words

  // PHY registers
  const R_BCR := 0
  const R_PORT := 0x10
  const R_LINK_TIMER := 0x13
  const R_POLARITY := 0x16
  const R_POWER := 0x18
  const R_STATE := 0x19
  const R_INT := 0x1E
  const R_PAGE := 0x1F

  const PAGE_0: Bits := {}
  const PAGE_99: Bits := {6, 5, 1, 0}

  // Bits
  const SPEED_100M: nat := 13       // BCR
  const AUTO_NEGO: nat := 12
  const POWER_DOWN: nat := 11
  const DUPLEX: nat := 8
  const PHY_RESET: Bits := {15}
  const LINKED: nat := 2            // BSR
  const NEGO_COMPLETE: nat := 5
  const WRONG_POLARITY: nat := 12   // register 0x10
  const SIGNAL_GOOD: nat := 9

  /** The value 0xffff of an absent PHY. */
  const ALL_ONES: Bits := {0, 1, 2, 3, 4, 5, 6, 7, 8, 9, 10, 11, 12, 13, 14, 15}

  /** An access to a PHY register, with the page selected at that moment.  Reads of the unpaged registers 0
      to 15 are not recorded. */
  datatype Access = Read(page: Bits, reg: nat) | Write(page: Bits, reg: nat, value: Bits)

  datatype Mii = Mii(
    linkSta: nat, valid: nat, accStep: nat, accTime: nat, procStep: nat, procTime: nat,
    taskTime: nat, lastStat: Bits, lastQuery: nat, now: nat,
    bcr: Bits, page: Bits, linkTimer: Bits, polarity: Bits, power: Bits,   // PHY registers the driver writes
    accesses: seq<Access>,
    maccr: Bits, notes: seq<Bits>,
    oldChip: bool)                                                        // (ChipId & 0xf0) <= 0x20

  /** What one call of the main task reads from the status registers. */
  datatype TaskReads = TaskReads(port: Bits, expansion: Bits, state: nat)

  /** What one status query reads: BSR, and inside ETH_PHYLink BSR, ANLPAR and BSR again and again. */
  datatype QueryReads = QueryReads(bsr: Bits, linkBsr: Bits, anlpar: nat, again: seq<Bits>)

  datatype Event =
    | Tick(ms: nat)                // WCHNET_TimeIsr
    | Query(seen: QueryReads)      // WCHNET_QueryPhySta
    | Task(reading: TaskReads)     // WCHNET_LinkProcessing
    | Hardware(bits: Bits)         // the PHY updates BCR; it never touches the power-down bit

  // ---- Register access ----

  function ReadPhy(m: Mii, reg: nat): Mii {
    m.(accesses := m.accesses + [Read(m.page, reg)])
  }

  function WritePhy(m: Mii, reg: nat, value: Bits): Mii {
    var m1 := m.(accesses := m.accesses + [Write(m.page, reg, value)]);
    if reg == R_BCR then m1.(bcr := value)
    else if reg == R_LINK_TIMER then m1.(linkTimer := value)
    else if reg == R_POLARITY then m1.(polarity := value)
    else if reg == R_POWER then m1.(power := value)
    else if reg == R_PAGE then m1.(page := value)
    else m1
  }

  // ---- The functions of the driver ----

  /** MACCR for the speed and duplex that BCR shows. */
  function MacMode(maccr: Bits, bcr: Bits): Bits {
    var slow := maccr - {14, 15};
    var paced := if SPEED_100M in bcr then slow + {14} else slow;
    if DUPLEX in bcr then paced + {11} else paced - {11}
  }

  function LinkUpCfg(m: Mii): Mii {
    var m1 := m.(
      maccr := MacMode(m.maccr, m.bcr) + {3, 2},
      linkSta := 1, accStep := 0, procStep := 0, procTime := 0);
    WritePhy(WritePhy(m1, R_PAGE, PAGE_0), R_LINK_TIMER, {})
  }

  function LinkDownCfg(m: Mii): Mii {
    m.(linkSta := 0, valid := 0, procTime := 0)
  }

  /** The k-th re-read of BSR. */
  function Again(again: seq<Bits>, k: nat): Bits {
    if k < |again| then again[k] else {}
  }

  /** BSR is read again while it reads zero, at most 16 times; k counts the re-reads made. */
  function Settled(stat: Bits, again: seq<Bits>, k: nat): Bits
    decreases 16 - k
  {
    if stat != {} || k >= 16 then stat else Settled(Again(again, k), again, k + 1)
  }

  /** What ETH_PHYLink does with a status word it takes as new. */
  function TakeStatus(m: Mii, stat: Bits, anlpar: nat): Mii {
    var m1 := m.(lastStat := stat, notes := m.notes + [stat]);
    if LINKED !in stat then LinkDownCfg(m1)
    else if AUTO_NEGO !in m1.bcr || anlpar == 0 || NEGO_COMPLETE in stat then LinkUpCfg(m1)
    else m1
  }

  /** The status word ETH_PHYLink goes by. */
  function StatusWord(m: Mii, seen: QueryReads): Bits {
    if m.oldChip then Settled(seen.linkBsr, seen.again, 0) else seen.linkBsr
  }

  function PhyLink(m: Mii, seen: QueryReads): Mii {
    var stat := StatusWord(m, seen);
    if m.oldChip && m.lastStat == stat then m else TakeStatus(m, stat, seen.anlpar)
  }

  function QueryPhySta(m: Mii, seen: QueryReads): Mii {
    if m.lastQuery == m.now / 1000 then m
    else
      var m1 := m.(lastQuery := m.now / 1000);
      if seen.bsr != m1.lastStat && seen.bsr != ALL_ONES then PhyLink(m1, seen) else m1
  }

  /** The pulse on bit 5 of register 0x16 that turns the polarity. */
  function TurnPolarity(m: Mii): Mii {
    var m1 := ReadPhy(WritePhy(m, R_PAGE, PAGE_0), R_POLARITY);
    var m2 := ReadPhy(WritePhy(m1, R_POLARITY, m1.polarity + {5}), R_POLARITY);
    ReadPhy(WritePhy(m2, R_POLARITY, m2.polarity - {5}), R_INT)
  }

  /** What the polarity check and the accelerator leave alone. */
  predicate SameLink(m: Mii, m': Mii) {
    m'.linkSta == m.linkSta && m'.taskTime == m.taskTime && m'.now == m.now && m'.lastStat == m.lastStat
    && m'.valid == m.valid && m'.maccr == m.maccr && m'.notes == m.notes
  }

  function CheckPhyPn(m: Mii, time: nat, reading: TaskReads): (r: Mii)
    ensures SameLink(m, r) && r.accStep == m.accStep && r.accTime == m.accTime && r.bcr == m.bcr
  {
    if m.procStep != 0 && m.now < m.procTime then m
    else
      var m1 := ReadPhy(WritePhy(m, R_PAGE, PAGE_0), R_PORT);
      if WRONG_POLARITY !in reading.port then m1.(procStep := 0, procTime := 0)
      else if m1.procStep == 0 then m1.(procStep := 1, procTime := (m1.now + time) % U32)
      else
        var m2 := m1.(procStep := 0, procTime := 0);
        if time == 200 || 0 !in reading.expansion then TurnPolarity(m2) else m2
  }

  function AccelerateLink(m: Mii, reading: TaskReads): (r: Mii)
    ensures SameLink(m, r) && (r.accStep == m.accStep || r.accStep == m.accStep + 1)
    ensures SPEED_100M in m.bcr ==> SPEED_100M in r.bcr
  {
    if m.accStep == 0 then
      var m1 := ReadPhy(WritePhy(m.(accStep := 1, accTime := 0), R_PAGE, PAGE_0), R_POWER);
      var m2 := WritePhy(m1, R_POWER, m1.power - {15});
      var m3 := WritePhy(m2, R_BCR, m2.bcr + {POWER_DOWN});
      WritePhy(WritePhy(m3, R_PAGE, PAGE_0), R_LINK_TIMER, {2})
    else if m.accStep == 1 then
      var m1 := m.(accTime := Inc8(m.accTime));
      if m.accTime <= 120 then m1
      else
        var m2 := ReadPhy(WritePhy(m1.(accStep := 2), R_PAGE, PAGE_0), R_POWER);
        var m3 := WritePhy(m2, R_POWER, m2.power + {15});
        WritePhy(m3, R_BCR, m3.bcr - {POWER_DOWN})
    else if m.accStep == 2 then
      var m1 := ReadPhy(WritePhy(m, R_PAGE, PAGE_99), R_STATE);
      if reading.state % 16 == 2 then
        WritePhy(WritePhy(m1.(accStep := 3), R_PAGE, PAGE_0), R_LINK_TIMER, {})
      else m1
    else m
  }

  /** The PHY is reset and its BCR put back; then the link is declared down. */
  function TearDown(m: Mii): Mii {
    LinkDownCfg(WritePhy(WritePhy(m.(procTime := 0), R_BCR, PHY_RESET), R_BCR, m.bcr))
  }

  function CheckLinkValid(m: Mii, reading: TaskReads): Mii {
    if m.valid != 0 then m
    else if SPEED_100M !in m.bcr then m.(valid := 1, procTime := 0)
    else
      var m1 := ReadPhy(WritePhy(m, R_PAGE, PAGE_0), R_PORT);
      if SIGNAL_GOOD in reading.port then m1.(procTime := 0)
      else if (m1.procTime + 1) % U32 == 5 then TearDown(m1)
      else m1.(procTime := (m1.procTime + 1) % U32)
  }

  /** The main task on a link that is down, in a call that is due. */
  function DownTask(m: Mii, reading: TaskReads): (r: Mii)
    ensures SameLink(m, r) && (r.accStep == m.accStep || r.accStep == m.accStep + 1)
    ensures SPEED_100M in m.bcr ==> SPEED_100M in r.bcr
  {
    if AUTO_NEGO in m.bcr then AccelerateLink(CheckPhyPn(m, 300, reading), reading)
    else if SPEED_100M !in m.bcr then CheckPhyPn(m, 200, reading)
    else m
  }

  /** A call that is due. */
  function DueTask(m: Mii, reading: TaskReads): (r: Mii)
    ensures r.now == m.now && r.lastStat == m.lastStat && r.maccr == m.maccr && r.notes == m.notes
    ensures m.linkSta == 0 ==> r.linkSta == 0 && r.valid == m.valid
    ensures m.linkSta == 0 && SPEED_100M in m.bcr ==> SPEED_100M in r.bcr
  {
    if m.linkSta != 0 then CheckLinkValid(m, reading) else DownTask(m, reading)
  }

  function LinkProcessing(m: Mii, reading: TaskReads): (r: Mii)
    ensures r.now == m.now && r.lastStat == m.lastStat && r.maccr == m.maccr && r.notes == m.notes
    ensures m.linkSta == 0 ==> r.linkSta == 0 && r.valid == m.valid
    ensures m.linkSta == 0 && SPEED_100M in m.bcr ==> SPEED_100M in r.bcr
  {
    if m.now < m.taskTime then m else DueTask(m.(taskTime := (m.now + 10) % U32), reading)
  }

  function Step(m: Mii, e: Event): Mii {
    match e
    case Tick(ms) => m.(now := (m.now + ms) % U32)
    case Query(seen) => QueryPhySta(m, seen)
    case Task(reading) => LinkProcessing(m, reading)
    case Hardware(bits) => m.(bcr := bits - {POWER_DOWN} + m.bcr * {POWER_DOWN})
  }

  function Run(m: Mii, events: seq<Event>): Mii {
    if events == [] then m
    else Step(Run(m, events[..|events| - 1]), events[|events| - 1])
  }

  // ---- The invariant of every reachable state ----

  predicate Start(m: Mii) {
    && m.linkSta == 0 && m.valid == 0 && m.accStep == 0 && m.accTime == 0 && m.procStep == 0 && m.procTime == 0
    && m.taskTime == 0 && m.lastQuery == 0 && m.now < U32 && m.page == PAGE_0 && m.accesses == []
  }

  /** Registers 16 to 30 exist once a page; the driver wants 0x19 on page 99 and the others on page 0. */
  predicate RightPage(a: Access) {
    16 <= a.reg <= 30 ==> a.page == if a.reg == R_STATE then PAGE_99 else PAGE_0
  }

  predicate RightPages(accesses: seq<Access>) {
    forall i | 0 <= i < |accesses| :: RightPage(accesses[i])
  }

  predicate Valid(m: Mii) {
    && m.linkSta <= 1 && m.valid <= 1 && m.accStep <= 3 && m.procStep <= 1
    && (m.linkSta == 1 ==> m.accStep == 0 && m.procStep == 0 && m.procTime <= 4)
    && (m.valid == 1 ==> m.linkSta == 1 && m.procTime == 0)
    && m.accTime <= 122 && (m.accStep == 1 ==> m.accTime <= 121)
    && m.now < U32 && m.taskTime < U32 && m.procTime < U32
    && RightPages(m.accesses)
  }

  lemma CheckPhyPnKeepsValid(m: Mii, time: nat, reading: TaskReads)
    requires Valid(m) && m.linkSta == 0
    ensures Valid(CheckPhyPn(m, time, reading))
  {
  }

  lemma AccelerateKeepsValid(m: Mii, reading: TaskReads)
    requires Valid(m) && m.linkSta == 0
    ensures Valid(AccelerateLink(m, reading))
  {
    if m.accStep == 0 {
      PowerDownKeepsValid(m, reading);
    } else if m.accStep == 1 {
      PowerUpKeepsValid(m, reading);
    }
  }

  lemma PowerDownKeepsValid(m: Mii, reading: TaskReads)
    requires Valid(m) && m.linkSta == 0 && m.accStep == 0
    ensures Valid(AccelerateLink(m, reading))
  {
  }

  lemma PowerUpKeepsValid(m: Mii, reading: TaskReads)
    requires Valid(m) && m.linkSta == 0 && m.accStep == 1
    ensures Valid(AccelerateLink(m, reading))
  {
  }

  lemma CheckLinkValidKeepsValid(m: Mii, reading: TaskReads)
    requires Valid(m) && m.linkSta == 1
    ensures Valid(CheckLinkValid(m, reading))
  {
  }

  lemma TakeStatusKeepsValid(m: Mii, stat: Bits, anlpar: nat)
    requires Valid(m)
    ensures Valid(TakeStatus(m, stat, anlpar))
  {
  }

  lemma QueryKeepsValid(m: Mii, seen: QueryReads)
    requires Valid(m)
    ensures Valid(QueryPhySta(m, seen))
  {
    TakeStatusKeepsValid(m.(lastQuery := m.now / 1000), StatusWord(m, seen), seen.anlpar);
  }

  lemma DownTaskKeepsValid(m: Mii, reading: TaskReads)
    requires Valid(m) && m.linkSta == 0
    ensures Valid(DownTask(m, reading))
  {
    CheckPhyPnKeepsValid(m, 300, reading);
    CheckPhyPnKeepsValid(m, 200, reading);
    AccelerateKeepsValid(CheckPhyPn(m, 300, reading), reading);
  }

  lemma AccelerateForward(m: Mii, reading: TaskReads)
    ensures
      var m' := AccelerateLink(m, reading);
      && (m'.accStep == m.accStep || m'.accStep == m.accStep + 1)
      && (m.accStep == 0 ==> m'.accStep == 1 && m'.accTime == 0 && POWER_DOWN in m'.bcr)
      && (m.accStep == 1 && m.accTime <= 120 ==> m'.accStep == 1 && m'.accTime == m.accTime + 1 && m'.bcr == m.bcr)
      && (m.accStep == 1 && m.accTime > 120 ==> m'.accStep == 2 && POWER_DOWN !in m'.bcr)
      && (SPEED_100M in m.bcr ==> SPEED_100M in m'.bcr)
  {
  }

  lemma TaskKeepsValid(m: Mii, reading: TaskReads)
    requires Valid(m)
    ensures Valid(LinkProcessing(m, reading))
  {
    if m.now >= m.taskTime {
      var due := m.(taskTime := (m.now + 10) % U32);
      DueTaskKeepsValid(due, reading);
      assert LinkProcessing(m, reading) == DueTask(due, reading);
    }
  }

  lemma DueTaskKeepsValid(m: Mii, reading: TaskReads)
    requires Valid(m)
    ensures Valid(DueTask(m, reading))
  {
    if m.linkSta != 0 {
      CheckLinkValidKeepsValid(m, reading);
    } else {
      DownTaskKeepsValid(m, reading);
    }
  }

  lemma StepKeepsValid(m: Mii, e: Event)
    requires Valid(m)
    ensures Valid(Step(m, e))
  {
    match e
    case Query(seen) => QueryKeepsValid(m, seen);
    case Task(reading) => TaskKeepsValid(m, reading);
    case _ =>
  }

  /** Main result: in every reachable state a link that is up has no negotiation aid running and at most four
      bad samples against it, a link declared valid is up, the power-down count never wraps, and every paged
      register was touched on its own page. */
  lemma {:induction false} Reachable(m: Mii, events: seq<Event>)
    requires Start(m)
    ensures Valid(Run(m, events))
  {
    if events == [] {
    } else {
      Reachable(m, events[..|events| - 1]);
      StepKeepsValid(Run(m, events[..|events| - 1]), events[|events| - 1]);
    }
  }

  // ---- The status word ETH_PHYLink settles on ----

  /** Main result on the retry loop: the first non-zero word among the reading and its sixteen repetitions,
      and zero exactly when all seventeen are zero. */
  lemma {:induction false} SettledIsFirstNonzero(stat: Bits, again: seq<Bits>, k: nat)
    requires k <= 16
    ensures Settled(stat, again, k) == {} <==> stat == {} && forall i | k <= i < 16 :: Again(again, i) == {}
    ensures Settled(stat, again, k) != {} && stat == {} ==>
      exists i | k <= i < 16 ::
        Again(again, i) == Settled(stat, again, k) && forall j | k <= j < i :: Again(again, j) == {}
    ensures stat != {} ==> Settled(stat, again, k) == stat
    decreases 16 - k
  {
    if stat != {} || k == 16 {
    } else {
      var next := Again(again, k);
      SettledIsFirstNonzero(next, again, k + 1);
      if Settled(stat, again, k) != {} && next == {} {
        var i :| k + 1 <= i < 16
          && Again(again, i) == Settled(next, again, k + 1) && forall j | k + 1 <= j < i :: Again(again, j) == {};
        assert forall j | k <= j < i :: Again(again, j) == {};
      }
    }
  }

  // ---- The power-down dwell ----

  /** The call is one of AccelerateLink in its step 1. */
  predicate DwellCall(m: Mii, e: Event) {
    e.Task? && m.now >= m.taskTime && m.linkSta == 0 && AUTO_NEGO in m.bcr && m.accStep == 1
  }

  function DwellCalls(m: Mii, events: seq<Event>): nat {
    if events == [] then 0
    else
      var init := events[..|events| - 1];
      DwellCalls(m, init) + if DwellCall(Run(m, init), events[|events| - 1]) then 1 else 0
  }

  /** The link has not come up at the end of any event of the run. */
  predicate NoLinkUp(m: Mii, events: seq<Event>) {
    if events == [] then m.linkSta == 0
    else NoLinkUp(m, events[..|events| - 1]) && Run(m, events).linkSta == 0
  }

  function Elapsed(events: seq<Event>): nat {
    if events == [] then 0
    else
      var e := events[|events| - 1];
      Elapsed(events[..|events| - 1]) + if e.Tick? then e.ms else 0
  }

  /** The PHY was powered down at time t0 and c step-1 calls have been made since. */
  predicate PoweredDown(m: Mii, t0: nat, c: nat) {
    && Valid(m) && m.linkSta == 0
    && m.accStep == 1 && m.accTime == c <= 121 && POWER_DOWN in m.bcr
    && m.taskTime >= t0 + 10 * (c + 1)
  }

  lemma PowerDownBegins(m: Mii, reading: TaskReads)
    requires Valid(m) && m.accStep == 0 && m.now + 10 < U32
    requires LinkProcessing(m, reading).accStep != 0
    ensures PoweredDown(LinkProcessing(m, reading), m.now, 0)
  {
    var m1 := m.(taskTime := (m.now + 10) % U32);
    TaskKeepsValid(m, reading);
    AccelerateForward(CheckPhyPn(m1, 300, reading), reading);
  }

  lemma QueryBelowLinkUp(m: Mii, seen: QueryReads)
    requires m.linkSta == 0 && QueryPhySta(m, seen).linkSta == 0
    ensures
      var m' := QueryPhySta(m, seen);
      m'.accStep == m.accStep && m'.accTime == m.accTime && m'.bcr == m.bcr && m'.taskTime == m.taskTime
  {
  }

  lemma DwellTask(m: Mii, t0: nat, c: nat, reading: TaskReads)
    requires PoweredDown(m, t0, c) && m.now + 10 < U32
    ensures
      var m' := LinkProcessing(m, reading);
      if !DwellCall(m, Task(reading)) then PoweredDown(m', t0, c)
      else if c < 121 then PoweredDown(m', t0, c + 1)
      else m'.accStep == 2 && POWER_DOWN !in m'.bcr && m.now >= t0 + 1220
  {
    TaskKeepsValid(m, reading);
    var m1 := m.(taskTime := (m.now + 10) % U32);
    AccelerateForward(CheckPhyPn(m1, 300, reading), reading);
  }

  lemma DwellStep(m: Mii, t0: nat, c: nat, e: Event)
    requires PoweredDown(m, t0, c) && m.now + 10 < U32
    requires Step(m, e).linkSta == 0
    ensures
      var m' := Step(m, e);
      if !DwellCall(m, e) then PoweredDown(m', t0, c)
      else if c < 121 then PoweredDown(m', t0, c + 1)
      else m'.accStep == 2 && POWER_DOWN !in m'.bcr && m.now >= t0 + 1220
  {
    match e
    case Query(seen) =>
      QueryKeepsValid(m, seen);
      QueryBelowLinkUp(m, seen);
    case Task(reading) => DwellTask(m, t0, c, reading);
    case _ => StepKeepsValid(m, e);
  }

  lemma {:induction false} ElapsedIsTime(m: Mii, events: seq<Event>)
    requires m.now + Elapsed(events) < U32
    ensures Run(m, events).now == m.now + Elapsed(events)
  {
    if events == [] {
    } else {
      ElapsedIsTime(m, events[..|events| - 1]);
      TimeOnlyTicks(Run(m, events[..|events| - 1]), events[|events| - 1]);
    }
  }

  lemma TimeOnlyTicks(m: Mii, e: Event)
    ensures Step(m, e).now == if e.Tick? then (m.now + e.ms) % U32 else m.now
  {
    if e.Task? {
    }
  }

  /** Main result on the dwell: with no link-up in between, the PHY stays powered down for exactly 122
      step-1 calls, and the last of them comes at least 1220 ms after the power-down (clock not wrapping). */
  lemma {:induction false} PowerDownDwell(m: Mii, t0: nat, events: seq<Event>)
    requires PoweredDown(m, t0, 0)
    requires NoLinkUp(m, events) && m.now + Elapsed(events) + 10 < U32
    ensures
      var r, c := Run(m, events), DwellCalls(m, events);
      && (c <= 121 ==> PoweredDown(r, t0, c))
      && (c >= 122 ==> r.now >= t0 + 1220)
      && (events != [] && c == 122 && DwellCalls(m, events[..|events| - 1]) == 121 ==>
            r.accStep == 2 && POWER_DOWN !in r.bcr)
  {
    if events == [] {
    } else {
      var init, e := events[..|events| - 1], events[|events| - 1];
      PowerDownDwell(m, t0, init);
      ElapsedIsTime(m, init);
      ElapsedIsTime(m, events);
      if DwellCalls(m, init) <= 121 {
        DwellStep(Run(m, init), t0, DwellCalls(m, init), e);
        TimeOnlyTicks(Run(m, init), e);
      }
    }
  }

  /** The step only moves forward until a link-up sends it back to 0. */
  lemma AccStepForward(m: Mii, e: Event)
    requires Valid(m)
    ensures
      var m' := Step(m, e);
      m'.accStep == m.accStep || m'.accStep == m.accStep + 1 || (m'.accStep == 0 && m'.linkSta == 1)
  {
    if e.Task? {
    }
  }
}
