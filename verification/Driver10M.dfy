/** The 10M driver as the C code has it: globals and registers updated in place.  Every method is proved
    against the corresponding function of PolaritySearch or Negotiation. */
module Driver10M {
  import opened Words
  import opened RandomInterval
  import opened PolaritySearch
  import opened Negotiation

  class Driver {
    // Globals of the negotiation
    var phyLinkStatus: nat
    var phyStatus: nat
    var phyLinkCnt: nat
    var phySucCnt: nat
    var phyPN: nat
    var trDetectStep: nat
    var trDetectCnt: nat
    var linkTaskPeriod: nat
    var randVal: nat
    var phyLinkReset: nat
    var phyLinkTime: nat
    var reInitMACFlag: nat
    var phyPolarityDetect: nat
    var linkSuccTime: nat
    var phyNegoStat: Bits
    var phyNegoLinkTime: nat
    var localTime: nat
    const chip20: bool
    // Registers
    var mdix: MdixReg
    var bcr: Bits
    var macffr: Bits
    var maccr: Bits
    var exten: Bits
    var dmaomr: Bits
    var macSetup: MacSetup
    ghost var counterResets: nat
    // What others have seen of it
    var phyWrites: seq<PhyWrite>
    var statusNotes: seq<Bits>

    ghost function SearchState(): Search
      reads this
    {
      Search(phyLinkStatus, phyLinkCnt, phySucCnt, phyPN, trDetectStep, trDetectCnt, linkTaskPeriod, randVal,
             phyStatus, phyPolarityDetect, mdix, bcr, phyWrites)
    }

    ghost function State(): Link
      reads this
    {
      Link(SearchState(), phyLinkReset, phyLinkTime, reInitMACFlag, linkSuccTime, phyNegoStat, phyNegoLinkTime,
           localTime, macffr, maccr, exten, dmaomr, macSetup, counterResets, statusNotes, chip20)
    }

    /** The initial globals, then ETH_Init up to the two PHY writes of ETH_RegInit. */
    constructor (mac3xor4xor5: nat, chip20: bool, macffr: Bits, maccr: Bits, exten: Bits, dmaomr: Bits, setup: MacSetup)
      ensures Start(State()) && Valid(State())
      ensures phyWrites == [Bcr({15}), Mdix(MdixReg(0, 0, 8, 0))] && SearchIsFresh(SearchState())
      ensures randVal == (mac3xor4xor5 * 214017 + 2531017) % 0x1_0000_0000 && linkTaskPeriod == 50 && 2 in this.exten
    {
      phyLinkStatus, phyStatus, phyLinkCnt, phySucCnt, phyPN := LINK_INIT, 0, 0, 0, PN_AUTO;
      trDetectStep, trDetectCnt, linkTaskPeriod := 0, 0, 50;
      randVal := Next(mac3xor4xor5);
      phyLinkReset, phyLinkTime, reInitMACFlag, phyPolarityDetect, linkSuccTime := 0, 0, 0, 0, 0;
      phyNegoStat, phyNegoLinkTime, localTime := {}, 0, 0;
      this.chip20, this.macffr, this.maccr := chip20, macffr, maccr;
      this.exten, this.dmaomr, macSetup, counterResets := exten + {ETH_10M_EN}, dmaomr, setup, 0;
      bcr, mdix := PHY_RESET, Bare(PN_AUTO);
      phyWrites, statusNotes := [Bcr(PHY_RESET), Mdix(Bare(PN_AUTO))], [];
    }

    /** WCHNET_PhyStatus: the library is told. */
    method PhyStatus(bsr: Bits)
      modifies this
      ensures State() == old(State()).(notes := old(statusNotes) + [bsr])
    {
      statusNotes := statusNotes + [bsr];
    }

    // ---- PHY access ----

    method WriteMdixRegister(value: MdixReg)
      modifies this`mdix, this`phyWrites
      ensures SearchState() == WriteMdix(old(SearchState()), value)
    {
      mdix, phyWrites := value, phyWrites + [Mdix(value)];
    }

    method WriteBcrRegister(bits: Bits)
      modifies this`bcr, this`phyWrites
      ensures SearchState() == WriteBcr(old(SearchState()), bits)
    {
      bcr, phyWrites := bits, phyWrites + [Bcr(bits)];
    }

    // ---- The macros of eth_driver.h ----

    method RestartAutoNegotiation()
      modifies this`bcr, this`phyWrites
      ensures SearchState() == RestartNegotiation(old(SearchState()))
    {
      var regVal := bcr - {0};
      regVal := regVal + {RESTART_NEGO};
      WriteBcrRegister(regVal);
      regVal := bcr + {0, 1, RESTART_NEGO};
      WriteBcrRegister(regVal);
    }

    method SwitchTr()
      modifies this`mdix, this`bcr, this`phyWrites
      ensures SearchState() == TrSwitch(old(SearchState()))
    {
      var value := mdix;
      if value.tr % 2 == 1 {
        value := value.(tr := 2);
      } else {
        value := value.(tr := 1);
      }
      WriteMdixRegister(value);
      RestartAutoNegotiation();
    }

    method ReverseTr()
      modifies this
      ensures State() == old(State()).(search := TrReverse(old(SearchState())))
    {
      if phyStatus != 0 {
        if mdix.tr % 2 == 1 {
          WriteMdixRegister(mdix.(tr := 2));
        } else {
          WriteMdixRegister(mdix.(tr := 1));
        }
      }
    }

    method SwitchPn(mode: nat)
      modifies this`phyPN, this`mdix, this`bcr, this`phyWrites
      ensures SearchState() == PnSwitch(old(SearchState()), mode)
    {
      var value := Bare(PN_AUTO);
      if mode != PN_AUTO {
        value := mdix.(high := 0, pn := mode);
      }
      WriteMdixRegister(value);
      phyPN := mode;
      RestartAutoNegotiation();
    }

    method InitParameters()
      modifies this`phyStatus, this`phySucCnt, this`phyLinkCnt, this`trDetectStep, this`phyPolarityDetect,
               this`phyLinkStatus, this`phyPN, this`mdix, this`phyWrites
      ensures SearchState() == ParamInit(old(SearchState()))
    {
      phyStatus := 0;
      phySucCnt := 0;
      phyLinkCnt := 0;
      trDetectStep := 0;
      phyPolarityDetect := 0;
      phyLinkStatus := LINK_INIT;
      phyPN := PN_AUTO;
      WriteMdixRegister(Bare(phyPN));
    }

    method ResetSearch()
      modifies this`phyStatus, this`phySucCnt, this`phyLinkCnt, this`trDetectStep, this`phyPolarityDetect,
               this`phyLinkStatus, this`phyPN, this`mdix, this`bcr, this`phyWrites
      ensures SearchState() == LinkReset(old(SearchState()))
    {
      WriteBcrRegister(PHY_RESET);
      InitParameters();
    }

    /** The same, seen from the whole driver. */
    method ResetLink()
      modifies this
      ensures State() == old(State()).(search := LinkReset(old(SearchState())))
    {
      ResetSearch();
    }

    method AccelerateLinkProcess(anlpar: nat)
      modifies this
      ensures State() == old(State()).(search := Accelerate(old(SearchState()), anlpar))
    {
      if trDetectStep < 2 && anlpar % 32 != 0 {
        linkTaskPeriod := 0;
      }
    }

    method UpdateLinkTaskPeriod()
      modifies this
      ensures State() == old(State()).(search := UpdatePeriod(old(SearchState())))
    {
      if trDetectStep == 1 {
        randVal := (randVal * MULTIPLIER + INCREMENT) % U32;
        linkTaskPeriod := randVal % 100 + 50;
      } else {
        linkTaskPeriod := 50;
      }
    }

    // ---- WCHNET_LinkProcess ----

    method PartnerSeen(bmsr: Bits)
      requires trDetectStep != 0 && Joint(SearchState())
      modifies this`phyLinkStatus, this`phyLinkCnt, this`phySucCnt, this`phyPN, this`trDetectStep, this`trDetectCnt,
               this`mdix, this`bcr, this`phyWrites
      ensures SearchState() == LinkProcess(old(SearchState()), 1, bmsr)
    {
      if trDetectStep == 1 {
        trDetectStep := 2;
        trDetectCnt := 0;
      }
      if !Waiting(phyLinkStatus) {
        if phyPN == PN_AUTO {
          SwitchPn(PN_P);
        } else if phyPN == PN_P {
          phyLinkStatus := WAIT_SUC;
        } else {
          phyLinkStatus := WAIT_SUC;
        }
      } else {
        var count := phySucCnt;
        phySucCnt := Inc8(phySucCnt);
        if count == 5 && NEGO_COMPLETE !in bmsr {
          phySucCnt := 0;
          if phyPN == PN_N {
            SwitchPn(PN_P);
          } else {
            SwitchPn(PN_N);
          }
        }
      }
      phyLinkCnt := 0;
    }

    method NoPartner()
      requires trDetectStep != 1 && Joint(SearchState())
      modifies this`phyStatus, this`phySucCnt, this`phyLinkCnt, this`trDetectStep, this`phyPolarityDetect,
               this`phyLinkStatus, this`phyPN, this`mdix, this`bcr, this`phyWrites
      ensures SearchState() == Lost(old(SearchState()))
    {
      var count := phyLinkCnt;
      phyLinkCnt := Inc8(phyLinkCnt);
      if phyLinkStatus == WAIT_SUC {
        if count == 15 { FallBack(); }
      } else {
        if phyPN == PN_P {
          if count == 4 {
            phyLinkCnt := 0;
            SwitchPn(PN_N);
          }
        } else if phyPN == PN_N {
          if count == 15 { FallBack(); }
        } else {
          if count == 5000 / TASK_PERIOD { ResetSearch(); }
        }
      }
    }

    method FallBack()
      modifies this`phyLinkStatus, this`phyLinkCnt, this`phySucCnt, this`phyPN, this`trDetectStep, this`mdix, this`bcr,
               this`phyWrites
      ensures SearchState() == PnSwitch(
        old(SearchState()).(linkCnt := 0, sucCnt := 0, step := 0, linkStatus := LINK_INIT), PN_AUTO)
    {
      phyLinkCnt := 0;
      phySucCnt := 0;
      trDetectStep := 0;
      phyLinkStatus := LINK_INIT;
      SwitchPn(PN_AUTO);
    }

    /** WCHNET_LinkProcess, on the variables of the search. */
    method ProcessLink(anlpar: nat, bmsr: Bits)
      requires Joint(SearchState())
      modifies this`phyStatus, this`phySucCnt, this`phyLinkCnt, this`trDetectStep, this`phyPolarityDetect,
               this`phyLinkStatus, this`phyPN, this`mdix, this`bcr, this`phyWrites,
               this`trDetectCnt, this`linkTaskPeriod
      ensures SearchState() == LinkProcess(old(SearchState()), anlpar, bmsr)
    {
      if anlpar % 32 != 0 {
        if trDetectStep == 0 {
          trDetectStep := 1;
          trDetectCnt := 1;
          SwitchTr();
          linkTaskPeriod := randVal % 100 + 50;
          return;
        }
        PartnerSeen(bmsr);
      } else {
        if trDetectStep == 1 {
          trDetectCnt := Inc8(trDetectCnt);
          if trDetectCnt == 8 {
            trDetectCnt := 0;
            trDetectStep := 0;
            WriteMdixRegister(Bare(PN_AUTO));
            return;
          }
          SwitchTr();
          return;
        }
        NoPartner();
      }
    }

    /** The same, seen from the whole driver. */
    method RunLinkProcess(anlpar: nat, bmsr: Bits)
      requires Joint(SearchState())
      modifies this
      ensures State() == old(State()).(search := LinkProcess(old(SearchState()), anlpar, bmsr))
    {
      ProcessLink(anlpar, bmsr);
    }

    // ---- WCHNET_HandlePhyNegotiation ----

    method PhyPNProcess(seen: HandleReads)
      modifies this
      ensures State() == PnProcess(old(State()), seen)
    {
      linkSuccTime := localTime;
      if seen.unicastBefore == 0 && seen.crcErrors >= 3 {
        TurnPolarity();
        ResetCounters();
      }
      if seen.unicastAfter != 0 {
        EndPolarityCheck();
      }
    }

    method TurnPolarity()
      modifies this
      ensures State() == old(State()).(search := WriteMdix(old(SearchState()), OtherPolarity(old(mdix))))
    {
      if mdix.pn / 4 % 2 == 1 {
        WriteMdixRegister(mdix.(pn := 0));
      } else {
        WriteMdixRegister(mdix.(pn := mdix.pn + 4));
      }
    }

    /** The reset of the MMC counters and the wait for it. */
    method ResetCounters()
      modifies this
      ensures State() == old(State()).(counterResets := old(counterResets) + 1)
    {
      counterResets := counterResets + 1;
    }

    method EndPolarityCheck()
      modifies this
      ensures State() == old(State()).(
        search := old(SearchState()).(polarity := 0), macffr := old(macffr) - FILTER_OFF)
    {
      phyPolarityDetect := 0;
      macffr := macffr - FILTER_OFF;
    }

    method CheckLinkAfterReinit(bmsr: Bits)
      requires phyStatus != 0
      modifies this
      ensures forall seen: HandleReads | seen.bmsr == bmsr :: State() == CheckAfterReinit(old(State()), seen)
    {
      if reInitMACFlag != 0 {
        if Since(localTime, phyLinkTime) >= 5 * TASK_PERIOD {
          reInitMACFlag := 0;
          if LINKED !in bmsr {
            PhyStatus(bmsr);
            ResetLink();
          }
        }
      }
    }

    method SearchNow(anlpar: nat, bmsr: Bits)
      requires Joint(SearchState())
      modifies this
      ensures State() == old(State()).(
        search := LinkProcess(UpdatePeriod(old(SearchState())), anlpar, bmsr), linkTime := old(localTime))
    {
      UpdateLinkTaskPeriod();
      phyLinkTime := localTime;
      RunLinkProcess(anlpar, bmsr);
    }

    method SeekPartner(seen: HandleReads)
      requires Joint(SearchState()) && phyLinkReset == 0 && phyStatus == 0
      modifies this
      ensures State() == Seek(old(State()), seen)
    {
      AccelerateLinkProcess(seen.anlparEarly);
      if Since(localTime, phyLinkTime) >= linkTaskPeriod {
        SearchNow(seen.anlpar, seen.bmsr);
      }
      if reInitMACFlag != 0 { reInitMACFlag := 0; }
    }

    method HandleNegotiation(seen: HandleReads)
      requires Valid(State())
      modifies this
      ensures State() == HandlePhyNegotiation(old(State()), seen) && Valid(State())
    {
      HandleKeepsValid(State(), seen);
      if phyLinkReset != 0 {
        if Since(localTime, phyLinkTime) >= 500 {
          phyLinkReset := 0;
          exten := exten + {ETH_10M_EN};
          ResetLink();
        }
      } else if phyStatus == 0 {
        SeekPartner(seen);
      } else {
        CheckLinkAfterReinit(seen.bmsr);
        if phyPolarityDetect != 0 {
          if Since(localTime, linkSuccTime) >= 2 * TASK_PERIOD {
            PhyPNProcess(seen);
          }
        }
      }
    }

    // ---- ReInitMACReg and WCHNET_RecProcess ----

    method StartMac()
      modifies this
      ensures State() == old(State()).(maccr := old(maccr) + RUNNING, dmaomr := old(dmaomr) + DMA_RUNNING)
    {
      maccr := maccr + RUNNING;
      dmaomr := dmaomr + DMA_RUNNING;
    }

    /** The software reset leaves arbitrary values in the MAC registers; the saved ones are put back. */
    method SaveAndReset()
      modifies this`macSetup, this`maccr, this`macffr, this`dmaomr
      ensures macSetup == old(macSetup) && maccr == old(maccr) && macffr == old(macffr) && dmaomr == old(dmaomr)
    {
      var savedSetup, savedCr, savedFfr, savedOmr := macSetup, maccr, macffr, dmaomr;
      macSetup, maccr, macffr, dmaomr := *, *, *, *;
      macSetup := savedSetup;
      maccr := savedCr;
      macffr := savedFfr;
      dmaomr := savedOmr;
    }

    method ResetMac()
      modifies this
      ensures State() == old(State())
    {
      SaveAndReset();
    }

    method ReInitMACReg()
      modifies this
      ensures State() == ReinitMac(old(State()))
    {
      ReverseTr();
      ResetMac();
      StartMac();
      ReverseTr();
      if phyStatus == 0 {
        ResetLink();
      }
      reInitMACFlag := 1;
      phyLinkTime := localTime;
    }

    method RecProcess(overflow: bool)
      requires Valid(State())
      modifies this
      ensures State() == Step(old(State()), Receive(overflow)) && Valid(State())
    {
      StepKeepsValid(State(), Receive(overflow));
      if chip20 && overflow {
        ReInitMACReg();
      }
    }

    // ---- ETH_PHYLink and the time interrupt ----

    method ConfigureLinkUp(bsr: Bits)
      modifies this
      ensures State() == LinkUpCfg(old(State()), bsr)
    {
      PhyStatus(bsr);
      maccr := maccr - FAST_SPEEDS;
      phyStatus := LINKED_STATUS;
      BeginPolarityCheck();
      StartMac();
    }

    method BeginPolarityCheck()
      modifies this
      ensures State() == old(State()).(
        macffr := old(macffr) + FILTER_OFF, succTime := old(localTime), counterResets := old(counterResets) + 1,
        search := old(SearchState()).(polarity := 1))
    {
      macffr := macffr + FILTER_OFF;
      ResetCounters();
      phyPolarityDetect := 1;
      linkSuccTime := localTime;
    }

    method SwitchOff()
      modifies this`exten, this`phyLinkReset, this`phyLinkTime
      ensures State() == PowerDown(old(State()))
    {
      exten := exten - {ETH_10M_EN};
      phyLinkReset := 1;
      phyLinkTime := localTime;
    }

    /** Link up towards a partner that does not negotiate. */
    method ParallelDetected(bsr: Bits)
      modifies this
      ensures State() == SelectAfterParallelDetection(LinkUpCfg(SetDuplex(old(State()), false), bsr))
    {
      maccr := maccr - {FULL_DUPLEX};
      ConfigureLinkUp(bsr);
      SelectPolarity();
    }

    method SelectPolarity()
      modifies this
      ensures State() == SelectAfterParallelDetection(old(State()))
    {
      if chip20 {
        if TURN_PN_POLARITY in phyNegoStat {
          WriteMdixRegister(Bare(PN_N));
        } else {
          WriteMdixRegister(Bare(PN_P));
          phyNegoStat := phyNegoStat + {LAST_NEGO_STAT};
        }
        phyNegoLinkTime := localTime;
      }
    }

    method LinkDown(bsr: Bits)
      modifies this
      ensures State() == TurnAfterShortLink(PowerDown(old(State()).(notes := old(statusNotes) + [bsr])))
    {
      PhyStatus(bsr);
      SwitchOff();
      if chip20 {
        if LAST_NEGO_STAT in phyNegoStat {
          if Since(localTime, phyNegoLinkTime) < 100 {
            phyNegoLinkTime := 0;
            phyNegoStat := if TURN_PN_POLARITY in phyNegoStat then phyNegoStat - {TURN_PN_POLARITY}
                           else phyNegoStat + {TURN_PN_POLARITY};
          }
        }
      }
    }

    method Negotiated(bsr: Bits, anlpar: nat, status: Bits)
      requires anlpar != 0 && LINKED in bsr && AUTO_NEGO in bcr
      modifies this
      ensures State() == PhyLink(old(State()), bsr, anlpar, status)
    {
      phyNegoStat := {};
      if NEGO_COMPLETE in bsr {
        if 2 in status {
          maccr := maccr + {FULL_DUPLEX};
        } else {
          if anlpar % 32 != SELECTOR_VALUE {
            maccr := maccr + {FULL_DUPLEX};
          } else {
            maccr := maccr - {FULL_DUPLEX};
          }
        }
        ConfigureLinkUp(bsr);
      } else {
        SwitchOff();
      }
    }

    method PHYLink(bsr: Bits, anlpar: nat, status: Bits)
      requires Valid(State())
      modifies this
      ensures State() == PhyLink(old(State()), bsr, anlpar, status) && Valid(State())
    {
      PhyLinkKeepsValid(State(), bsr, anlpar, status);
      if LINKED in bsr {
        if AUTO_NEGO in bcr {
          if anlpar == 0 {
            if NEGO_COMPLETE in bsr {
              ParallelDetected(bsr);
            } else {
              ResetLink();
            }
          } else {
            Negotiated(bsr, anlpar, status);
          }
        } else {
          maccr := maccr - {FULL_DUPLEX};
          ConfigureLinkUp(bsr);
        }
      } else {
        LinkDown(bsr);
      }
    }

    method TimeIsr(ms: nat)
      requires Valid(State())
      modifies this`localTime
      ensures State() == Step(old(State()), Tick(ms)) && Valid(State())
    {
      StepKeepsValid(State(), Tick(ms));
      localTime := (localTime + ms) % U32;
    }
  }
}
