/** The exact outcome of every event of the 10M link, in terms of register values, bit positions and times, and
    what follows from it for whole runs. */
module LinkOutcomes {
  import opened Words
  import opened PolaritySearch
  import opened SearchOutcomes
  import opened SearchRuns
  import opened Negotiation

  // ---- The link interrupt ----

  /** A link-up: the library told, the MAC at 10M with the given duplex and running, the filter off, the counters
      reset, the polarity check begun. */
  function Up(l: Link, bsr: Bits, full: bool): Link {
    l.(notes := l.notes + [bsr],
       maccr := (if full then l.maccr + {11} else l.maccr - {11}) - {14, 15} + {2, 3},
       dmaomr := l.dmaomr + {1, 13}, macffr := l.macffr + {0, 31},
       counterResets := l.counterResets + 1,
       search := l.search.(status := 4, polarity := 1), succTime := l.now)
  }

  /** The internal PHY off and the dwell begun. */
  function Off(l: Link): Link {
    l.(exten := l.exten - {2}, linkReset := 1, linkTime := l.now)
  }

  function Elapsed(now: nat, stamp: nat): nat {
    (now - stamp) % 0x1_0000_0000
  }

  lemma DownOutcome(l: Link, bsr: Bits, anlpar: nat, status: Bits)
    requires 2 !in bsr
    ensures
      var off := Off(l.(notes := l.notes + [bsr]));
      PhyLink(l, bsr, anlpar, status) ==
        if l.chip20 && 0 in l.negoStat && Elapsed(l.now, l.negoTime) < 100 then
          off.(negoTime := 0, negoStat := if 1 in l.negoStat then l.negoStat - {1} else l.negoStat + {1})
        else off
  {
  }

  /** A link whose partner negotiates: full duplex if the PHY says so or the selector is not that of Ethernet. */
  lemma NegotiatedOutcome(l: Link, bsr: Bits, anlpar: nat, status: Bits)
    requires 2 in bsr && 12 in l.search.bcr && anlpar != 0
    ensures
      var forgot := l.(negoStat := {});
      PhyLink(l, bsr, anlpar, status) ==
        if 5 in bsr then Up(forgot, bsr, 2 in status || anlpar % 32 != 1) else Off(forgot)
  {
  }

  /** A link without negotiation, or with a partner that does not negotiate. */
  lemma SilentOutcome(l: Link, bsr: Bits, anlpar: nat, status: Bits)
    requires 2 in bsr && (12 !in l.search.bcr || anlpar == 0)
    ensures
      var up := Up(l, bsr, false);
      PhyLink(l, bsr, anlpar, status) ==
        if 12 !in l.search.bcr then up
        else if 5 !in bsr then l.(search := StartedOver(l.search))
        else if !l.chip20 then up
        else if 1 in l.negoStat then
          up.(search := up.search.(mdix := MdixReg(0, 0, 4, 0),
                                   writes := up.search.writes + [Mdix(MdixReg(0, 0, 4, 0))]),
              negoTime := l.now)
        else
          up.(search := up.search.(mdix := MdixReg(0, 0, 0, 0),
                                   writes := up.search.writes + [Mdix(MdixReg(0, 0, 0, 0))]),
              negoStat := l.negoStat + {0}, negoTime := l.now)
  {
    LinkResetOutcome(l.search);
  }

  // ---- WCHNET_HandlePhyNegotiation ----

  lemma DwellOutcome(l: Link, seen: HandleReads)
    requires l.linkReset != 0
    ensures
      HandlePhyNegotiation(l, seen) ==
        if Elapsed(l.now, l.linkTime) >= 500 then
          l.(linkReset := 0, exten := l.exten + {2}, search := StartedOver(l.search))
        else l
  {
    LinkResetOutcome(l.search);
  }

  /** Without a link the search runs when its period is over, or at once when a partner appears before step 2. */
  lemma SeekOutcome(l: Link, seen: HandleReads)
    requires l.linkReset == 0 && l.search.status == 0
    ensures
      HandlePhyNegotiation(l, seen) ==
        if Elapsed(l.now, l.linkTime) >= l.search.period || (l.search.step < 2 && seen.anlparEarly % 32 != 0) then
          l.(search := LinkProcess(UpdatePeriod(l.search), seen.anlpar, seen.bmsr), linkTime := l.now, reinit := 0)
        else l.(reinit := 0)
  {
    var s := l.search;
    PeriodOutcome(s, seen.anlparEarly);
    PeriodOutcome(Accelerate(s, seen.anlparEarly), seen.anlparEarly);
    assert UpdatePeriod(Accelerate(s, seen.anlparEarly)) == UpdatePeriod(s);
  }

  /** 250 ms after a re-initialisation the link is looked at once. */
  lemma ReinitCheckOutcome(l: Link, seen: HandleReads)
    ensures
      CheckAfterReinit(l, seen) ==
        if l.reinit == 0 || Elapsed(l.now, l.linkTime) < 250 then l
        else if 2 in seen.bmsr then l.(reinit := 0)
        else l.(reinit := 0, notes := l.notes + [seen.bmsr], search := StartedOver(l.search))
  {
    LinkResetOutcome(l.search);
  }

  /** The polarity that a check of broken frames only turns to. */
  function OtherPn(pn: nat): nat {
    if pn == 4 || pn == 12 then 0 else pn + 4
  }

  /** One polarity check: broken frames alone, three or more, turn the polarity and reset the counters; a good
      frame ends the checking and switches the filter on. */
  lemma PolarityCheckOutcome(l: Link, seen: HandleReads)
    requires l.search.mdix.pn in {0, 4, 8, 12}
    ensures
      var other := l.search.mdix.(pn := OtherPn(l.search.mdix.pn));
      var l1 := if seen.unicastBefore == 0 && seen.crcErrors >= 3 then
                  l.(search := l.search.(mdix := other, writes := l.search.writes + [Mdix(other)]),
                     counterResets := l.counterResets + 1)
                else l;
      PnProcess(l, seen) ==
        if seen.unicastAfter != 0 then
          l1.(succTime := l.now, search := l1.search.(polarity := 0), macffr := l.macffr - {0, 31})
        else l1.(succTime := l.now)
  {
  }

  /** The linked branch: the check after a re-initialisation, then, 100 ms after the last one, a polarity check. */
  lemma LinkedOutcome(l: Link, seen: HandleReads)
    requires l.linkReset == 0 && l.search.status != 0
    ensures
      var l1 := CheckAfterReinit(l, seen);
      HandlePhyNegotiation(l, seen) ==
        if l1.search.polarity != 0 && Elapsed(l.now, l.succTime) >= 100 then PnProcess(l1, seen) else l1
  {
  }

  // ---- WCHNET_RecProcess and the clock ----

  lemma ReceiveOutcome(l: Link, overflow: bool)
    ensures
      var t := Turned(l.search.mdix);
      Step(l, Receive(overflow)) ==
        if !l.chip20 || !overflow then l
        else
          l.(search := if l.search.status == 0 then StartedOver(l.search)
                       else l.search.(mdix := Turned(t), writes := l.search.writes + [Mdix(t), Mdix(Turned(t))]),
             maccr := l.maccr + {2, 3}, dmaomr := l.dmaomr + {1, 13}, reinit := 1, linkTime := l.now)
  {
    LinkResetOutcome(l.search);
    if l.search.status != 0 {
      assert l.search.writes + [Mdix(Turned(l.search.mdix))] + [Mdix(Turned(Turned(l.search.mdix)))]
          == l.search.writes + [Mdix(Turned(l.search.mdix)), Mdix(Turned(Turned(l.search.mdix)))];
    }
  }

  lemma TickOutcome(l: Link, ms: nat)
    ensures Step(l, Tick(ms)) == l.(now := (l.now + ms) % 0x1_0000_0000)
  {
  }
}
