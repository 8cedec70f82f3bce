/** The 10M link as a whole: the polarity search plus the link interrupt, the power-down dwell of the
    internal PHY, the MAC filter during polarity checking, and the MAC re-initialisation. */
module Negotiation {
  import opened Words
  import opened RandomInterval
  import opened PolaritySearch
  import opened SearchOutcomes

  const ETH_10M_EN: nat := 2                   // EXTEN_CTR
  const FILTER_OFF: Bits := {31, 0}            // MACFFR: ReceiveAll and PromiscuousMode
  const FULL_DUPLEX: nat := 11                 // MACCR
  const FAST_SPEEDS: Bits := {14, 15}
  const RUNNING: Bits := {3, 2}                // set by ETH_Start
  const DMA_RUNNING: Bits := {13, 1}           // DMAOMR, set by ETH_Start; its FIFO flush bit clears itself
  const AUTO_NEGO: nat := 12                   // BCR
  const LAST_NEGO_STAT: nat := 0               // phyNegoStat
  const TURN_PN_POLARITY: nat := 1
  const SELECTOR_VALUE := 1
  const LINKED_STATUS := 4                     // PHY_Linked_Status as a value of phyStatus

  /** MAC registers the link machine never changes: MACMIIAR, MACHTHR, MACHTLR, MACFCR and MACVLANTR. */
  datatype MacSetup = MacSetup(miiar: nat, hthr: nat, htlr: nat, fcr: nat, vlantr: nat)

  datatype Link = Link(
    search: Search,
    linkReset: nat, linkTime: nat,             // phyLinkReset, phyLinkTime
    reinit: nat, succTime: nat,                // ReInitMACFlag, LinkSuccTime
    negoStat: Bits, negoTime: nat,             // phyNegoStat, phyNegoLinkTime
    now: nat,                                  // LocalTime
    macffr: Bits, maccr: Bits, exten: Bits,
    dmaomr: Bits, setup: MacSetup,
    counterResets: nat,                        // resets of the MMC counters
    notes: seq<Bits>,                          // calls of WCHNET_PhyStatus
    chip20: bool)                              // (ChipId & 0xf0) == 0x20

  /** The reads of one call of WCHNET_HandlePhyNegotiation: ANLPAR by the accelerator, ANLPAR and BMSR by the
      search or the link check, and the two MMC counters around the counter reset. */
  datatype HandleReads = HandleReads(
    anlparEarly: nat, anlpar: nat, bmsr: Bits, unicastBefore: nat, crcErrors: nat, unicastAfter: nat)

  /** One atomic step of the system. */
  datatype Event =
    | Tick(ms: nat)                                             // WCHNET_TimeIsr
    | Handle(seen: HandleReads)                                 // WCHNET_HandlePhyNegotiation
    | Receive(overflow: bool)                                   // WCHNET_RecProcess
    | LinkInterrupt(bsr: Bits, anlpar: nat, status: Bits)       // ETH_PHYLink
    | Hardware(bcr: Bits)                                       // the PHY changes BCR

  // ---- The functions of the driver ----

  function LinkUpCfg(l: Link, bsr: Bits): Link {
    l.(notes := l.notes + [bsr],
       maccr := l.maccr - FAST_SPEEDS + RUNNING, dmaomr := l.dmaomr + DMA_RUNNING,
       macffr := l.macffr + FILTER_OFF,
       search := l.search.(status := LINKED_STATUS, polarity := 1),
       counterResets := l.counterResets + 1, succTime := l.now)
  }

  function PowerDown(l: Link): Link {
    l.(exten := l.exten - {ETH_10M_EN}, linkReset := 1, linkTime := l.now)
  }

  function SelectAfterParallelDetection(l: Link): Link {
    if !l.chip20 then l
    else
      var turned := TURN_PN_POLARITY in l.negoStat;
      l.(search := WriteMdix(l.search, Bare(if turned then PN_N else PN_P)),
         negoStat := if turned then l.negoStat else l.negoStat + {LAST_NEGO_STAT},
         negoTime := l.now)
  }

  function TurnAfterShortLink(l: Link): Link {
    if l.chip20 && LAST_NEGO_STAT in l.negoStat && Since(l.now, l.negoTime) < 100 then
      l.(negoTime := 0,
         negoStat := if TURN_PN_POLARITY in l.negoStat then l.negoStat - {TURN_PN_POLARITY}
                     else l.negoStat + {TURN_PN_POLARITY})
    else l
  }

  function SetDuplex(l: Link, full: bool): Link {
    l.(maccr := if full then l.maccr + {FULL_DUPLEX} else l.maccr - {FULL_DUPLEX})
  }

  function PhyLink(l: Link, bsr: Bits, anlpar: nat, status: Bits): Link {
    if LINKED !in bsr then TurnAfterShortLink(PowerDown(l.(notes := l.notes + [bsr])))
    else if AUTO_NEGO !in l.search.bcr then LinkUpCfg(SetDuplex(l, false), bsr)
    else if anlpar == 0 then
      if NEGO_COMPLETE in bsr then SelectAfterParallelDetection(LinkUpCfg(SetDuplex(l, false), bsr))
      else l.(search := LinkReset(l.search))
    else
      var l1 := l.(negoStat := {});
      if NEGO_COMPLETE in bsr then
        LinkUpCfg(SetDuplex(l1, 2 in status || anlpar % 32 != SELECTOR_VALUE), bsr)
      else PowerDown(l1)
  }

  /** MDIX after a polarity check that found only broken frames. */
  function OtherPolarity(mdix: MdixReg): MdixReg {
    if mdix.pn / 4 % 2 == 1 then mdix.(pn := 0) else mdix.(pn := mdix.pn + 4)
  }

  function PnProcess(l: Link, seen: HandleReads): Link {
    var l1 := l.(succTime := l.now);
    var l2 :=
      if seen.unicastBefore == 0 && seen.crcErrors >= 3 then
        l1.(search := WriteMdix(l1.search, OtherPolarity(l1.search.mdix)), counterResets := l1.counterResets + 1)
      else l1;
    if seen.unicastAfter != 0 then
      l2.(search := l2.search.(polarity := 0), macffr := l2.macffr - FILTER_OFF)
    else l2
  }

  /** The unlinked branch: the search runs when its period is over. */
  predicate SearchDue(l: Link, anlparEarly: nat) {
    l.linkReset == 0 && l.search.status == 0
    && Since(l.now, l.linkTime) >= Accelerate(l.search, anlparEarly).period
  }

  function Seek(l: Link, seen: HandleReads): Link {
    var s := Accelerate(l.search, seen.anlparEarly);
    if SearchDue(l, seen.anlparEarly) then
      l.(search := LinkProcess(UpdatePeriod(s), seen.anlpar, seen.bmsr), linkTime := l.now, reinit := 0)
    else l.(search := s, reinit := 0)
  }

  /** After a MAC re-initialisation the link is looked at once more. */
  function CheckAfterReinit(l: Link, seen: HandleReads): Link {
    if l.reinit == 0 || Since(l.now, l.linkTime) < 5 * TASK_PERIOD then l
    else if LINKED in seen.bmsr then l.(reinit := 0)
    else l.(reinit := 0, notes := l.notes + [seen.bmsr], search := LinkReset(l.search))
  }

  function HandlePhyNegotiation(l: Link, seen: HandleReads): Link {
    if l.linkReset != 0 then
      if Since(l.now, l.linkTime) >= 500 then
        l.(linkReset := 0, exten := l.exten + {ETH_10M_EN}, search := LinkReset(l.search))
      else l
    else if l.search.status == 0 then Seek(l, seen)
    else
      var l1 := CheckAfterReinit(l, seen);
      if l1.search.polarity != 0 && Since(l1.now, l1.succTime) >= 2 * TASK_PERIOD then PnProcess(l1, seen) else l1
  }

  function TrReverse(s: Search): Search {
    if s.status != 0 then WriteMdix(s, Crossed(s.mdix)) else s
  }

  /** ReInitMACReg: the MAC registers survive the software reset because they are saved around it. */
  function ReinitMac(l: Link): Link {
    var s := TrReverse(TrReverse(l.search));
    l.(search := if s.status == 0 then LinkReset(s) else s,
       maccr := l.maccr + RUNNING, dmaomr := l.dmaomr + DMA_RUNNING, reinit := 1, linkTime := l.now)
  }

  function Step(l: Link, e: Event): Link {
    match e
    case Tick(ms) => l.(now := (l.now + ms) % U32)
    case Handle(seen) => HandlePhyNegotiation(l, seen)
    case Receive(overflow) => if l.chip20 && overflow then ReinitMac(l) else l
    case LinkInterrupt(bsr, anlpar, status) => PhyLink(l, bsr, anlpar, status)
    case Hardware(bcr) => l.(search := l.search.(bcr := bcr))
  }

  function Run(l: Link, events: seq<Event>): Link {
    if events == [] then l
    else Step(Run(l, events[..|events| - 1]), events[|events| - 1])
  }

  /** The milliseconds that pass in a run. */
  function Ms(events: seq<Event>): nat {
    if events == [] then 0
    else
      var e := events[|events| - 1];
      Ms(events[..|events| - 1]) + if e.Tick? then e.ms else 0
  }

  // ---- The invariant of every reachable state ----

  /** After ETH_Init: the globals at their initial values, the PHY on and in AUTO. */
  predicate Start(l: Link) {
    var s := l.search;
    && s.linkStatus == LINK_INIT && s.linkCnt == 0 && s.sucCnt == 0 && s.pn == PN_AUTO && s.step == 0
    && s.trCnt == 0 && s.period == 50 && s.rand < U32 && s.status == 0 && s.polarity == 0
    && s.mdix == Bare(PN_AUTO)
    && l.linkReset == 0 && ETH_10M_EN in l.exten && l.negoStat == {}
    && l.linkTime == 0 && l.reinit == 0 && l.succTime == 0 && l.negoTime == 0 && l.now < U32
  }

  /** The internal PHY is off exactly while the dwell is pending. */
  predicate PowerAgrees(l: Link) {
    (l.linkReset == 0 || l.linkReset == 1) && (ETH_10M_EN in l.exten <==> l.linkReset == 0)
  }

  /** While linked, the MAC filter is switched off exactly during the polarity check. */
  predicate FilterAgrees(l: Link) {
    l.search.status != 0 ==>
      if l.search.polarity == 1 then FILTER_OFF <= l.macffr
      else l.search.polarity == 0 && FILTER_OFF !! l.macffr
  }

  predicate PeriodInRange(s: Search) {
    50 <= s.period <= 149
  }

  predicate Clocked(l: Link) {
    l.now < U32 && l.linkTime < U32 && l.succTime < U32 && l.negoTime < U32 && l.search.rand < U32
  }

  predicate Valid(l: Link) {
    && Joint(l.search)
    && PeriodInRange(l.search)
    && l.search.polarity <= 1
    && PowerAgrees(l)
    && FilterAgrees(l)
    && Clocked(l)
  }

  lemma SearchKeepsPeriod(s: Search, anlpar: nat, bmsr: Bits)
    requires Joint(s) && s.rand < U32 && s.status == 0 && s.polarity <= 1
    ensures
      var s' := LinkProcess(UpdatePeriod(s), anlpar, bmsr);
      PeriodInRange(s') && Joint(s') && s'.rand < U32 && s'.status == 0 && s'.polarity <= 1
  {
    LinkProcessKeepsJoint(UpdatePeriod(s), anlpar, bmsr);
  }

  lemma SeekKeepsValid(l: Link, seen: HandleReads)
    requires Valid(l) && l.linkReset == 0 && l.search.status == 0
    ensures Valid(Seek(l, seen))
  {
    var s := Accelerate(l.search, seen.anlparEarly);
    if SearchDue(l, seen.anlparEarly) {
      SearchKeepsPeriod(s, seen.anlpar, seen.bmsr);
    }
  }

  lemma LinkResetKeepsValid(l: Link)
    requires Valid(l)
    ensures Valid(l.(search := LinkReset(l.search)))
  {
  }

  lemma PnProcessKeepsValid(l: Link, seen: HandleReads)
    requires Valid(l) && l.search.status != 0 && l.search.polarity != 0
    ensures Valid(PnProcess(l, seen))
  {
  }

  lemma CheckKeepsValid(l: Link, seen: HandleReads)
    requires Valid(l)
    ensures Valid(CheckAfterReinit(l, seen))
    ensures
      var l' := CheckAfterReinit(l, seen);
      l'.search == l.search || l'.search == LinkReset(l.search)
  {
    LinkResetKeepsValid(l);
  }

  lemma HandleKeepsValid(l: Link, seen: HandleReads)
    requires Valid(l)
    ensures Valid(HandlePhyNegotiation(l, seen))
  {
    LinkResetKeepsValid(l);
    if l.linkReset == 0 {
      if l.search.status == 0 {
        SeekKeepsValid(l, seen);
      } else {
        CheckKeepsValid(l, seen);
        var l1 := CheckAfterReinit(l, seen);
        if l1.search.polarity != 0 { PnProcessKeepsValid(l1, seen); }
      }
    }
  }

  lemma LinkUpKeepsValid(l: Link, bsr: Bits, full: bool)
    requires Valid(l)
    ensures Valid(LinkUpCfg(SetDuplex(l, full), bsr))
  {
  }

  lemma SelectKeepsValid(l: Link)
    requires Valid(l) && l.search.status != 0
    ensures Valid(SelectAfterParallelDetection(l))
  {
  }

  lemma PowerDownKeepsValid(l: Link)
    requires Valid(l)
    ensures Valid(PowerDown(l)) && Valid(TurnAfterShortLink(PowerDown(l)))
  {
  }

  lemma PhyLinkKeepsValid(l: Link, bsr: Bits, anlpar: nat, status: Bits)
    requires Valid(l)
    ensures Valid(PhyLink(l, bsr, anlpar, status))
  {
    if LINKED !in bsr {
      PowerDownKeepsValid(l.(notes := l.notes + [bsr]));
    } else if AUTO_NEGO !in l.search.bcr || anlpar == 0 {
      LinkUpKeepsValid(l, bsr, false);
      SelectKeepsValid(LinkUpCfg(SetDuplex(l, false), bsr));
      LinkResetKeepsValid(l);
    } else {
      var l1 := l.(negoStat := {});
      LinkUpKeepsValid(l1, bsr, 2 in status || anlpar % 32 != SELECTOR_VALUE);
      PowerDownKeepsValid(l1);
    }
  }

  lemma StepKeepsValid(l: Link, e: Event)
    requires Valid(l)
    ensures Valid(Step(l, e))
  {
    match e
    case Handle(seen) => HandleKeepsValid(l, seen);
    case LinkInterrupt(bsr, anlpar, status) => PhyLinkKeepsValid(l, bsr, anlpar, status);
    case _ =>
  }

  /** Main result: in every reachable state, whatever the interleaving of main task, interrupts and hardware,
      the joint invariant of the search holds and MDIX shows phyPN whenever there is no link; the period is
      in 50..149; the PHY is off exactly while phyLinkReset is set; and the filter is off exactly during the
      polarity check of a link. */
  lemma {:induction false} Reachable(l: Link, events: seq<Event>)
    requires Start(l)
    ensures
      var r := Run(l, events);
      && Valid(r)
      && (r.search.status == 0 ==> r.search.mdix.pn == r.search.pn)
      && (r.search.step == 2 <==> r.search.pn != PN_AUTO)
      && 50 <= r.search.period <= 149
      && (ETH_10M_EN in r.exten <==> r.linkReset == 0)
      && (r.search.status != 0 ==> (FILTER_OFF <= r.macffr <==> r.search.polarity == 1))
  {
    if events == [] {
    } else {
      Reachable(l, events[..|events| - 1]);
      StepKeepsValid(Run(l, events[..|events| - 1]), events[|events| - 1]);
    }
  }

  // ---- Re-initialisation and the crossover ----

  /** A re-initialisation of a linked MAC reverses the crossover twice: it comes back exactly when one of the
      two crossovers was forced, and otherwise forces one. */
  lemma ReinitRestoresCrossover(l: Link)
    requires l.search.status != 0 && l.search.mdix.tr < 4
    ensures ReinitMac(l).search.mdix == l.search.mdix <==> l.search.mdix.tr == 1 || l.search.mdix.tr == 2
    ensures ReinitMac(l).search.mdix.pn == l.search.mdix.pn
    ensures ReinitMac(l).search.mdix.tr == 1 || ReinitMac(l).search.mdix.tr == 2
  {
  }

  /** The failing input: a link that comes up with no crossover forced has one forced by the first
      re-initialisation. */
  lemma ReinitForcesCrossover(l: Link)
    requires Start(l) && l.chip20
    ensures
      var up := Step(l, LinkInterrupt({LINKED, NEGO_COMPLETE}, 1, {}));
      && up.search.status != 0 && up.search.mdix == Bare(PN_AUTO)
      && Step(up, Receive(true)).search.mdix == Bare(PN_AUTO).(tr := 2)
  {
    assert LINKED in {LINKED, NEGO_COMPLETE} && NEGO_COMPLETE in {LINKED, NEGO_COMPLETE};
  }

  // ---- Real time ----

  /** Real milliseconds beside the wrapping clock: the moment phyLinkTime was last set, the last time the PHY
      was switched off, and the last run of the search. */
  datatype Timed = Timed(l: Link, clock: nat, stamp: nat, down: nat, searched: nat)

  predicate Stamps(l: Link, e: Event) {
    match e
    case Handle(seen) => SearchDue(l, seen.anlparEarly)
    case Receive(overflow) => l.chip20 && overflow
    case LinkInterrupt(_, _, _) => SwitchesOff(l, e)
    case _ => false
  }

  /** The interrupt finds the link down, or up with negotiation unfinished and a partner known. */
  predicate SwitchesOff(l: Link, e: Event) {
    e.LinkInterrupt?
    && (LINKED !in e.bsr || (AUTO_NEGO in l.search.bcr && e.anlpar != 0 && NEGO_COMPLETE !in e.bsr))
  }

  predicate Searches(l: Link, e: Event) {
    e.Handle? && SearchDue(l, e.seen.anlparEarly)
  }

  function TimedStep(t: Timed, e: Event): Timed {
    Timed(Step(t.l, e),
          if e.Tick? then t.clock + e.ms else t.clock,
          if Stamps(t.l, e) then t.clock else t.stamp,
          if SwitchesOff(t.l, e) then t.clock else t.down,
          if Searches(t.l, e) then t.clock else t.searched)
  }

  function TimedRun(t: Timed, events: seq<Event>): Timed {
    if events == [] then t
    else TimedStep(TimedRun(t, events[..|events| - 1]), events[|events| - 1])
  }

  predicate TimedValid(t: Timed) {
    && Valid(t.l)
    && t.l.now == t.clock % U32
    && t.l.linkTime == t.stamp % U32
    && t.searched <= t.stamp <= t.clock
    && (t.l.linkReset != 0 ==> t.down <= t.stamp)
  }

  predicate TimedStart(t: Timed) {
    Start(t.l) && t == Timed(t.l, t.l.now, 0, 0, 0)
  }

  lemma TimedStepKeepsValid(t: Timed, e: Event)
    requires TimedValid(t)
    ensures TimedValid(TimedStep(t, e))
  {
    StepKeepsValid(t.l, e);
    match e
    case Tick(ms) => TickIsModular(t.clock, ms);
    case Handle(seen) => HandleStamps(t.l, seen);
    case LinkInterrupt(bsr, anlpar, status) => InterruptStamps(t.l, bsr, anlpar, status);
    case _ =>
  }

  lemma TickIsModular(clock: nat, ms: nat)
    ensures (clock % U32 + ms) % U32 == (clock + ms) % U32
  {
    AddMultiple(clock % U32 + ms, clock / U32);
    assert clock + ms == (clock % U32 + ms) + U32 * (clock / U32);
  }

  lemma HandleStamps(l: Link, seen: HandleReads)
    ensures
      var l' := HandlePhyNegotiation(l, seen);
      && l'.now == l.now
      && l'.linkTime == (if SearchDue(l, seen.anlparEarly) then l.now else l.linkTime)
      && (l'.linkReset != 0 ==> l'.linkReset == l.linkReset)
      && (SearchDue(l, seen.anlparEarly) ==> l'.linkReset == 0)
  {
  }

  lemma InterruptStamps(l: Link, bsr: Bits, anlpar: nat, status: Bits)
    ensures
      var l' := PhyLink(l, bsr, anlpar, status);
      && l'.now == l.now
      && (if SwitchesOff(l, LinkInterrupt(bsr, anlpar, status)) then l'.linkReset == 1 && l'.linkTime == l.now
          else l'.linkReset == l.linkReset && l'.linkTime == l.linkTime)
  {
  }

  lemma {:induction false} TimedReachable(t: Timed, events: seq<Event>)
    requires TimedStart(t)
    ensures TimedValid(TimedRun(t, events))
  {
    if events == [] {
    } else {
      TimedReachable(t, events[..|events| - 1]);
      TimedStepKeepsValid(TimedRun(t, events[..|events| - 1]), events[|events| - 1]);
    }
  }

  /** Main result on the dwell, across any number of clock wraps: the step that switches the internal PHY on
      again comes at least 500 real milliseconds after the last event that switched it off, and leaves the
      search fresh, with TRDetectCnt as it was. */
  lemma PowerDownDwell(start: Timed, events: seq<Event>, e: Event)
    requires TimedStart(start)
    ensures
      var t := TimedRun(start, events);
      var t' := TimedStep(t, e);
      2 !in t.l.exten && 2 in t'.l.exten ==>
        && t.clock - t.down >= 500
        && t'.l.linkReset == 0
        && t'.l.search == StartedOver(t.l.search)
        && SearchIsFresh(t'.l.search) && t'.l.search.trCnt == t.l.search.trCnt
  {
    TimedReachable(start, events);
    var t := TimedRun(start, events);
    SinceIsModular(t.clock, t.stamp);
    if e.LinkInterrupt? && ETH_10M_EN !in t.l.exten { InterruptPower(t.l, e.bsr, e.anlpar, e.status); }
    LinkResetOutcome(t.l.search);
  }

  /** No link, no polarity check, and a search at its beginning, with the PHY reset and in AUTO. */
  predicate SearchIsFresh(s: Search) {
    && s.status == 0 && s.polarity == 0
    && s.step == 0 && s.linkCnt == 0 && s.sucCnt == 0 && s.linkStatus == 0
    && s.pn == 8 && s.mdix == MdixReg(0, 0, 8, 0) && s.bcr == {15}
  }

  /** ... and a call of the main task made within one clock period of that stamp ends the dwell exactly when
      500 ms have passed. */
  lemma DwellEnds(start: Timed, events: seq<Event>, seen: HandleReads)
    requires TimedStart(start)
    ensures
      var t := TimedRun(start, events);
      t.l.linkReset != 0 && t.clock - t.stamp < U32 ==>
        (2 in TimedStep(t, Handle(seen)).l.exten <==> t.clock - t.stamp >= 500)
  {
    TimedReachable(start, events);
    var t := TimedRun(start, events);
    SinceIsModular(t.clock, t.stamp);
  }

  lemma InterruptPower(l: Link, bsr: Bits, anlpar: nat, status: Bits)
    requires ETH_10M_EN !in l.exten
    ensures ETH_10M_EN !in PhyLink(l, bsr, anlpar, status).exten
  {
  }

  /** Main result on the pace: a run of the search that starts in its second stage comes at least 50 real
      milliseconds after the run before it, across any number of clock wraps. */
  lemma SearchPace(start: Timed, events: seq<Event>, e: Event)
    requires TimedStart(start)
    ensures
      var t := TimedRun(start, events);
      Searches(t.l, e) && t.l.search.step == 2 ==> t.clock - t.searched >= 50
  {
    TimedReachable(start, events);
    var t := TimedRun(start, events);
    SinceIsModular(t.clock, t.stamp);
  }
}
