/** The MII driver as the C code has it, proved against MiiSupervision. */
module DriverMii {
  import opened Words
  import opened MiiSupervision

  class Driver {
    // Globals
    var linkSta: nat
    var linkValidFlag: nat
    var accelerateLinkStep: nat
    var accelerateLinkTime: nat
    var linkProcessingStep: nat
    var linkProcessingTime: nat
    var taskExecutionTime: nat
    var lastPhyStat: Bits
    var lastQueryPhyTime: nat
    var localTime: nat
    const oldChip: bool
    // PHY and MAC registers
    var bcr: Bits
    var page: Bits
    var linkTimer: Bits
    var polarity: Bits
    var power: Bits
    var maccr: Bits
    // What others have seen of it
    var accesses: seq<Access>
    var statusNotes: seq<Bits>

    ghost function State(): Mii
      reads this
    {
      Mii(linkSta, linkValidFlag, accelerateLinkStep, accelerateLinkTime, linkProcessingStep, linkProcessingTime,
          taskExecutionTime, lastPhyStat, lastQueryPhyTime, localTime, bcr, page, linkTimer, polarity, power,
          accesses, maccr, statusNotes, oldChip)
    }

    /** The initial globals; ETH_RegInit leaves page 0 selected and has read BSR once. */
    constructor (oldChip: bool, bcr: Bits, bsr: Bits, maccr: Bits)
      ensures Start(State()) && Valid(State())
    {
      linkSta, linkValidFlag, accelerateLinkStep, accelerateLinkTime := 0, 0, 0, 0;
      linkProcessingStep, linkProcessingTime, taskExecutionTime := 0, 0, 0;
      lastPhyStat, lastQueryPhyTime, localTime := bsr, 0, 0;
      this.oldChip, this.bcr, this.maccr := oldChip, bcr, maccr;
      page, linkTimer, polarity, power := PAGE_0, {}, {}, {};
      accesses, statusNotes := [], [];
    }

    // ---- PHY access ----

    method ReadRegister(reg: nat)
      modifies this
      ensures State() == ReadPhy(old(State()), reg)
    {
      accesses := accesses + [Read(page, reg)];
    }

    method WriteRegister(reg: nat, value: Bits)
      modifies this
      ensures State() == WritePhy(old(State()), reg, value)
    {
      accesses := accesses + [Write(page, reg, value)];
      if reg == R_BCR {
        bcr := value;
      } else if reg == R_LINK_TIMER {
        linkTimer := value;
      } else if reg == R_POLARITY {
        polarity := value;
      } else if reg == R_POWER {
        power := value;
      } else if reg == R_PAGE {
        page := value;
      }
    }

    // ---- Link up and down ----

    method ConfigureLinkUp()
      modifies this
      ensures State() == LinkUpCfg(old(State()))
    {
      SetMacMode();
      MarkLinkUp();
      maccr := maccr + {3, 2};
      WriteRegister(R_PAGE, PAGE_0);
      WriteRegister(R_LINK_TIMER, {});
    }

    method MarkLinkUp()
      modifies this
      ensures State() == old(State()).(linkSta := 1, accStep := 0, procStep := 0, procTime := 0)
    {
      linkSta := 1;
      accelerateLinkStep := 0;
      linkProcessingStep := 0;
      linkProcessingTime := 0;
    }

    method SetMacMode()
      modifies this
      ensures State() == old(State()).(maccr := MacMode(old(maccr), old(bcr)))
    {
      if SPEED_100M in bcr {
        maccr := maccr - {14, 15};
        maccr := maccr + {14};
      } else {
        maccr := maccr - {14, 15};
      }
      if DUPLEX in bcr {
        maccr := maccr + {11};
      } else {
        maccr := maccr - {11};
      }
    }

    method ConfigureLinkDown()
      modifies this`linkSta, this`linkValidFlag, this`linkProcessingTime
      ensures State() == LinkDownCfg(old(State()))
    {
      linkSta := 0;
      linkValidFlag := 0;
      linkProcessingTime := 0;
    }

    /** The retry loop of ETH_PHYLink. */
    method SettleStatus(first: Bits, again: seq<Bits>) returns (stat: Bits)
      ensures stat == Settled(first, again, 0)
    {
      stat := first;
      var timeout := 0;
      while stat == {}
        invariant 0 <= timeout <= 15
        invariant Settled(stat, again, timeout) == Settled(first, again, 0)
        decreases 16 - timeout, if stat == {} then 1 else 0
      {
        stat := Again(again, timeout);
        if timeout == 15 {
          assert Settled({}, again, 15) == Settled(stat, again, 16) == stat;
          break;
        }
        timeout := timeout + 1;
      }
    }

    method PHYLink(seen: QueryReads)
      modifies this
      ensures State() == PhyLink(old(State()), seen)
    {
      var stat := seen.linkBsr;
      if oldChip {
        stat := SettleStatus(stat, seen.again);
        if lastPhyStat == stat { return; }
      }
      lastPhyStat := stat;
      statusNotes := statusNotes + [stat];
      if LINKED in stat {
        if AUTO_NEGO in bcr {
          if seen.anlpar == 0 {
            ConfigureLinkUp();
          } else {
            if NEGO_COMPLETE in stat {
              ConfigureLinkUp();
            }
          }
        } else {
          ConfigureLinkUp();
        }
      } else {
        ConfigureLinkDown();
      }
    }

    method QueryStatus(seen: QueryReads)
      requires Valid(State())
      modifies this
      ensures State() == QueryPhySta(old(State()), seen) && Valid(State())
    {
      QueryKeepsValid(State(), seen);
      if lastQueryPhyTime != localTime / 1000 {
        lastQueryPhyTime := localTime / 1000;
        if seen.bsr != lastPhyStat && seen.bsr != ALL_ONES {
          PHYLink(seen);
        }
      }
    }

    // ---- The 10 ms task ----

    method PulsePolarity()
      modifies this
      ensures State() == TurnPolarity(old(State()))
    {
      WriteRegister(R_PAGE, PAGE_0);
      ReadRegister(R_POLARITY);
      WriteRegister(R_POLARITY, polarity + {5});
      ReadRegister(R_POLARITY);
      WriteRegister(R_POLARITY, polarity - {5});
      ReadRegister(R_INT);
    }

    method CheckPHYPN(time: nat, reading: TaskReads)
      modifies this
      ensures State() == CheckPhyPn(old(State()), time, reading)
    {
      if linkProcessingStep == 0 || localTime >= linkProcessingTime {
        WriteRegister(R_PAGE, PAGE_0);
        ReadRegister(R_PORT);
        if WRONG_POLARITY in reading.port {
          if linkProcessingStep == 0 {
            linkProcessingStep := 1;
            linkProcessingTime := (localTime + time) % U32;
          } else {
            linkProcessingStep := 0;
            linkProcessingTime := 0;
            if time == 200 || 0 !in reading.expansion {
              PulsePolarity();
            }
          }
        } else {
          linkProcessingStep := 0;
          linkProcessingTime := 0;
        }
      }
    }

    method PowerPhyDown()
      modifies this
      ensures
        var m := old(State());
        var m1 := ReadPhy(WritePhy(m, R_PAGE, PAGE_0), R_POWER);
        var m2 := WritePhy(m1, R_POWER, m1.power - {15});
        var m3 := WritePhy(m2, R_BCR, m2.bcr + {POWER_DOWN});
        State() == WritePhy(WritePhy(m3, R_PAGE, PAGE_0), R_LINK_TIMER, {2})
    {
      WriteRegister(R_PAGE, PAGE_0);
      ReadRegister(R_POWER);
      WriteRegister(R_POWER, power - {15});
      WriteRegister(R_BCR, bcr + {POWER_DOWN});
      WriteRegister(R_PAGE, PAGE_0);
      WriteRegister(R_LINK_TIMER, {2});
    }

    method PowerPhyUp()
      modifies this
      ensures
        var m2 := ReadPhy(WritePhy(old(State()), R_PAGE, PAGE_0), R_POWER);
        var m3 := WritePhy(m2, R_POWER, m2.power + {15});
        State() == WritePhy(m3, R_BCR, m3.bcr - {POWER_DOWN})
    {
      WriteRegister(R_PAGE, PAGE_0);
      ReadRegister(R_POWER);
      WriteRegister(R_POWER, power + {15});
      WriteRegister(R_BCR, bcr - {POWER_DOWN});
    }

    method Accelerate(reading: TaskReads)
      modifies this
      ensures State() == AccelerateLink(old(State()), reading)
    {
      if accelerateLinkStep == 0 {
        accelerateLinkStep := accelerateLinkStep + 1;
        accelerateLinkTime := 0;
        PowerPhyDown();
      } else if accelerateLinkStep == 1 {
        var count := accelerateLinkTime;
        accelerateLinkTime := Inc8(accelerateLinkTime);
        if count > 120 {
          accelerateLinkStep := accelerateLinkStep + 1;
          PowerPhyUp();
        }
      } else if accelerateLinkStep == 2 {
        WriteRegister(R_PAGE, PAGE_99);
        ReadRegister(R_STATE);
        if reading.state % 16 == 2 {
          accelerateLinkStep := accelerateLinkStep + 1;
          WriteRegister(R_PAGE, PAGE_0);
          WriteRegister(R_LINK_TIMER, {});
        }
      }
    }

    method CheckValid(reading: TaskReads)
      modifies this
      ensures State() == CheckLinkValid(old(State()), reading)
    {
      if linkValidFlag == 0 {
        if SPEED_100M !in bcr {
          linkValidFlag := 1;
          linkProcessingTime := 0;
          return;
        }
        WriteRegister(R_PAGE, PAGE_0);
        ReadRegister(R_PORT);
        if SIGNAL_GOOD !in reading.port {
          linkProcessingTime := (linkProcessingTime + 1) % U32;
          if linkProcessingTime == 5 {
            linkProcessingTime := 0;
            var saved := bcr;
            WriteRegister(R_BCR, PHY_RESET);
            WriteRegister(R_BCR, saved);
            ConfigureLinkDown();
          }
        } else {
          linkProcessingTime := 0;
        }
      }
    }

    /** A call that is due while the link is down. */
    method AidLink(reading: TaskReads)
      modifies this
      ensures State() == DownTask(old(State()), reading)
    {
      if AUTO_NEGO in bcr {
        CheckPHYPN(300, reading);
        Accelerate(reading);
      } else {
        if SPEED_100M !in bcr {
          CheckPHYPN(200, reading);
        }
      }
    }

    method RunDue(reading: TaskReads)
      modifies this
      ensures State() == DueTask(old(State()), reading)
    {
      if linkSta == 0 {
        AidLink(reading);
      } else {
        CheckValid(reading);
      }
    }

    method RunLinkProcessing(reading: TaskReads)
      requires Valid(State())
      modifies this
      ensures State() == LinkProcessing(old(State()), reading) && Valid(State())
    {
      TaskKeepsValid(State(), reading);
      if localTime >= taskExecutionTime {
        taskExecutionTime := (localTime + 10) % U32;
        RunDue(reading);
      }
    }

    method TimeIsr(ms: nat)
      requires Valid(State())
      modifies this`localTime
      ensures State() == Step(old(State()), Tick(ms)) && Valid(State())
    {
      StepKeepsValid(State(), Tick(ms));
      localTime := (localTime + ms) % U32;
    }
  }
}
