# CH32V30x drivers: a verified model

The firmware examples for the CH32V307 contain a handful of routines whose correctness rests on state shared
between the main task, interrupts and hardware. This project models those routines in Dafny and proves what they
keep, step by step and over whole runs.

| module | what it models |
|---|---|
| `PolaritySearch`, `SearchOutcomes`, `SearchRuns` | `WCHNET_LinkProcess` and its macros: the search of the internal 10M PHY for a crossover and a polarity |
| `Negotiation`, `LinkOutcomes`, `LinkRuns`, `NegotiationRecovery`, `Driver10M` | the 10M link as a whole: main task, link interrupt, clock, power-down dwell, MAC filter, MAC re-initialisation |
| `ParallelDetection` | the polarity memory for partners that do not negotiate |
| `RandomInterval` | the generator behind the random crossover interval |
| `TxRing`, `TxWire` | `ETH_TxPktChainMode` and the DMA engine on a descriptor ring of any size |
| `SdiMailbox` | `_write` over the two-word debug mailbox, with the debug host |
| `MiiSupervision`, `MiiOutcomes`, `MiiRuns`, `DriverMii` | link supervision of an external MII PHY |
| `ClockTree`, `ClockRegisters`, `ClockDriver` | `SystemInit`, the thirteen `SetSysClockTo*` presets, `SystemCoreClockUpdate` |
| `Delay` | `Delay_Init`, `Delay_Us`, `Delay_Ms` on top of any core clock |
| `Heap` | `_sbrk` |
| `Words` | 32-bit clocks, 8-bit counters, registers as sets of bit positions |

Each stateful component has the same shape. A datatype holds the whole state, total functions give each step, and
an event or schedule chooses every register reading and every interleaving. A class holds the same globals and
registers as the C code and updates them in place; its methods follow the branches of the C functions and are
proved equal to the step functions. The modules named Outcomes, `ClockRegisters` and parts of the others say once
more, in register values, bit positions and times alone, what each operation leaves; the remaining lemmas say what
the step functions keep and achieve over whole runs.

Three of the components interleave below the level of a function: the transmit ring, the mailbox and the clock
set-up are modelled one memory access at a time. The two link machines interleave whole calls.

The main results, one or a few a component: `Negotiation.Reachable`, `SearchRuns.BoundedRecovery`,
`NegotiationRecovery.ResetInTime`, `SearchRuns.PolaritiesAlternate`, `SearchRuns.IntervalsAreDrawn`,
`Negotiation.PowerDownDwell`, `LinkRuns.SearchResumes`, `LinkRuns.EveryResetStartsOver`, `LinkRuns.MacFollowsLink`,
`LinkRuns.BrokenChecksAlternate`, `ParallelDetection.NextDetection`; `RandomInterval.FullCycle`;
`TxRing.SentOnceInOrder`, `TxRing.RefinesFifo`, `TxRing.EverythingGoesOut`, `TxWire.WireCarriesRequests`;
`SdiMailbox.NothingLost`, `SdiMailbox.EverythingPrinted`; `MiiRuns.Supervision`, `MiiRuns.StaysDownIff`,
`MiiRuns.MacFollowsLastLinkUp`, `MiiOutcomes.AidsAgree`, `MiiOutcomes.Deadline`, `MiiSupervision.PowerDownDwell`;
`ClockTree.BootIsSafe`, `ClockTree.CoreClockIsFloor`, `ClockTree.RoundTrip`, `ClockRegisters.BootRegisters`;
`Delay.DelayAccuracy`; `Heap.BlocksTile`.

## What the model shows about the code

* **The flip test can be missed.** While waiting for negotiation the polarity flips only in a call in which
  `phySucCnt++ == 5` meets an incomplete negotiation. If negotiation happens to be complete in exactly that call,
  the count runs on, and the polarity then stays put for the next 255 calls. `FlipTest` gives the exact condition,
  `MissedFlip` the family of runs, `MissedFlipReached` one that starts at a link reset. The `phyLinkCnt++ == k`
  tests have no such weakness: `Joint` bounds the counter.
* **A torn-down MII link may stay down.** A link comes up exactly at a query that is due, first reads a word other
  than the one last acted on and other than 0xffff, and settles on a word (on an old chip again another one) with a
  link that is negotiated, forced, or without a partner ability (`QueryOutcome`, lifted to runs by `StaysDownIff`).
  The tear-down after five bad samples leaves `LastPhyStat` alone, so a PHY that goes on reporting the same link
  is never noticed again (`TornDownForGood`).
* **A valid MII link may escape supervision.** `LinkValidFlag` is cleared only when the link goes down
  (`ValidUntilDown`), so a link declared valid at 10M that links up again at 100M is never sampled
  (`SecondLinkUpIsNotSupervised`).
* **A polarity turn of the MII driver may come early.** `ETH_LinkDownCfg` clears LinkProcessingTime but not
  LinkProcessingStep, so a status word without a link, taken while the polarity check is armed, moves its deadline
  to 0 (`Deadline`); the next look then turns the polarity, 20 ms after the first one in `TurnComesEarly`.
* **Repeated link-downs can undo the polarity turn.** The guard against a second turn is `phyNegoLinkTime = 0`,
  which holds exactly while `LocalTime` is at least 100 at the further link-down (`YoungIffTurnsNow`,
  `NextDetection`); within the first 100 ms of the clock a second one turns the polarity back
  (`SecondDownTurnsBack`).
* **A double reversal is not always an identity.** `ReInitMACReg` reverses the crossover twice; MDIX comes back
  exactly when one of the two crossovers was already forced, otherwise one is forced (`ReinitRestoresCrossover`,
  `ReinitForcesCrossover`).
* **A delay is empty below 8 MHz.** `p_us` is zero exactly for core clocks below 8 MHz, and otherwise a delay of n
  microseconds is short by less than n ticks (`DelayAccuracy`).

## Model

| member | source | states |
|---|---|---|
| PolaritySearch.LinkProcessKeepsJoint | EVT/EXAM/ETH/NetLib/eth_driver_10M.c:170-271 | every call keeps the joint invariant over step, polarity, wait state, counters and MDIX, so no `phyLinkCnt++ == k` test is overshot and MDIX shows phyPN while there is no link |
| PolaritySearch.LostKeepsJoint | EVT/EXAM/ETH/NetLib/eth_driver_10M.c:233-269 | the fallbacks of a call without a partner keep the joint invariant |
| PolaritySearch.LinkResetIsJoint | EVT/EXAM/ETH/NetLib/eth_driver.h:135-149 | a link reset establishes the joint invariant from any state, whatever was broken before |
| SearchOutcomes.RestartOutcome | EVT/EXAM/ETH/NetLib/eth_driver.h:79-87 | a restart of negotiation writes BCR with bit 9 set and bit 0 clear, and then with bits 0, 1 and 9 set |
| SearchOutcomes.TrSwitchOutcome | EVT/EXAM/ETH/NetLib/eth_driver.h:89-103 | a crossover switch writes 2 over a set bit 0 of MDIX and 1 otherwise, and restarts negotiation |
| SearchOutcomes.PnSwitchOutcome | EVT/EXAM/ETH/NetLib/eth_driver.h:122-133 | a switch to P or N keeps crossover and middle bits of MDIX and drops the high byte; one to AUTO writes the bare mode; both restart negotiation |
| SearchOutcomes.LinkResetOutcome | EVT/EXAM/ETH/NetLib/eth_driver.h:135-149 | a link reset writes BCR bit 15 and MDIX 8 and clears link, polarity check and search, TRDetectCnt and period apart |
| SearchOutcomes.PeriodOutcome | EVT/EXAM/ETH/NetLib/eth_driver.h:63-77 | the interval is drawn in step 1 only, is 50 otherwise, and is dropped for a partner before step 2 |
| SearchOutcomes.SeenOutcome | EVT/EXAM/ETH/NetLib/eth_driver_10M.c:177-217 | the whole state after a call that sees a partner, MDIX, BCR and the order of the PHY writes included |
| SearchOutcomes.WindowOutcome | EVT/EXAM/ETH/NetLib/eth_driver_10M.c:220-232 | the same for a call in the window that sees none |
| SearchOutcomes.LostOutcome | EVT/EXAM/ETH/NetLib/eth_driver_10M.c:233-269 | the same for a call outside it, with 5, 16 and 101 calls of patience |
| SearchRuns.CallsKeepJoint | EVT/EXAM/ETH/NetLib/eth_driver_10M.c:170-271 | the joint invariant holds after any number of calls with any readings |
| SearchRuns.MissCountsDown | EVT/EXAM/ETH/NetLib/eth_driver_10M.c:218-270 | a call without a partner brings the next link reset exactly one call nearer |
| SearchRuns.LastMissResets | EVT/EXAM/ETH/NetLib/eth_driver_10M.c:265-268 | the last such call is exactly a link reset |
| SearchRuns.CallsToResetBounds | EVT/EXAM/ETH/NetLib/eth_driver_10M.c:218-270 | the number of calls left is between 1 and 122, and 122 only at the start of the P phase |
| SearchRuns.BoundedRecovery | EVT/EXAM/ETH/NetLib/eth_driver_10M.c:218-270 | from every reachable state, without a partner, the PHY is reset in exactly the predicted call, at most the 122nd, and not before |
| SearchRuns.WaitStep | EVT/EXAM/ETH/NetLib/eth_driver_10M.c:207-216 | a waiting call counts, and the sixth flips P and N in phyPN and in MDIX, where crossover and middle bits stay |
| SearchRuns.PatternStep | EVT/EXAM/ETH/NetLib/eth_driver_10M.c:177-217 | one more call with a partner advances the search along its twelve-call pattern |
| SearchRuns.PolaritiesAlternate | EVT/EXAM/ETH/NetLib/eth_driver_10M.c:177-217 | with a partner in view and negotiation never completing, the third call starts the wait in P and every sixth call after it flips the polarity, for any number of calls, while the crossover chosen by the first call stays in MDIX |
| SearchRuns.CrossoversAlternate | EVT/EXAM/ETH/NetLib/eth_driver.h:89-103 | the k-th switch selects 2 or 1 by the parity of k and of the starting bit 0, and leaves the rest of MDIX alone |
| SearchRuns.TrSwitchWritesOnce | EVT/EXAM/ETH/NetLib/eth_driver.h:89-103 | a switch writes MDIX once, with the other crossover |
| SearchRuns.MissSwitchesAgain | EVT/EXAM/ETH/NetLib/eth_driver_10M.c:220-232 | one of the first six misses in a window makes one more switch |
| SearchRuns.SeventhMissCloses | EVT/EXAM/ETH/NetLib/eth_driver_10M.c:222-229 | the seventh miss writes AUTO and closes the window |
| SearchRuns.WindowOfSevenSwitches | EVT/EXAM/ETH/NetLib/eth_driver_10M.c:177-232 | a window that sees no partner after its first call makes exactly seven switches, in order, and ends by writing AUTO |
| SearchRuns.FlipTest | EVT/EXAM/ETH/NetLib/eth_driver_10M.c:208-214 | the exact condition for a flip: the count modulo 256 is 5 and negotiation is incomplete in that very call |
| SearchRuns.MissedFlip | EVT/EXAM/ETH/NetLib/eth_driver_10M.c:208-214 | one completed reading in the sixth call of a wait keeps the polarity for 255 further calls, whatever they read |
| SearchRuns.MissedFlipReached | EVT/EXAM/ETH/NetLib/eth_driver_10M.c:208-214 | the failing input: eight calls after a link reset, the ninth decides between a flip to N and 255 more calls in P |
| SearchRuns.DueCallDraws | EVT/EXAM/ETH/NetLib/eth_driver.h:68-77 | what one due call makes of RandVal and of the period |
| SearchRuns.IntervalsAreDrawn | EVT/EXAM/ETH/NetLib/eth_driver.h:68-77 | over any run of due calls RandVal advances once for every call in a window, and in a window the period is RandVal % 100 + 50 |
| SearchRuns.EveryIntervalDrawn | EVT/EXAM/ETH/NetLib/eth_driver.h:68-77 | every interval from 50 to 149 ms is drawn, whatever the seed |
| Negotiation.SeekKeepsValid | EVT/EXAM/ETH/NetLib/eth_driver_10M.c:294-304 | the unlinked branch leaves the period in 50..149, though the accelerator may zero it inside, and keeps the rest of the invariant |
| Negotiation.PnProcessKeepsValid | EVT/EXAM/ETH/NetLib/eth_driver_10M.c:119-141 | the polarity check of a link keeps the invariant, the filter bits included |
| Negotiation.CheckKeepsValid | EVT/EXAM/ETH/NetLib/eth_driver_10M.c:306-318 | the check after a re-initialisation keeps the invariant and leaves the search alone or resets it |
| Negotiation.HandleKeepsValid | EVT/EXAM/ETH/NetLib/eth_driver_10M.c:282-328 | the main-task call keeps the invariant |
| Negotiation.PhyLinkKeepsValid | EVT/EXAM/ETH/NetLib/eth_driver_10M.c:470-560 | the link interrupt keeps the invariant |
| Negotiation.StepKeepsValid | EVT/EXAM/ETH/NetLib/eth_driver_10M.c:98-159 | every step of the system keeps the invariant |
| Negotiation.Reachable | EVT/EXAM/ETH/NetLib/eth_driver_10M.c:119-648 | in every reachable state: joint invariant, shadow agreement, period range, PHY off exactly while phyLinkReset is set, filter off exactly during the polarity check of a link |
| Negotiation.ReinitRestoresCrossover | EVT/EXAM/ETH/NetLib/eth_driver_10M.c:571-648 | two reversals restore MDIX exactly when a crossover was forced; the polarity is always kept |
| Negotiation.ReinitForcesCrossover | EVT/EXAM/ETH/NetLib/eth_driver_10M.c:571-648 | the failing input: the first link after the start, in AUTO, has a crossover forced by a re-initialisation |
| Negotiation.HandleStamps | EVT/EXAM/ETH/NetLib/eth_driver_10M.c:282-328 | the main task restamps phyLinkTime exactly when it runs the search |
| Negotiation.InterruptStamps | EVT/EXAM/ETH/NetLib/eth_driver_10M.c:470-560 | the interrupt starts the dwell and restamps phyLinkTime in exactly the two switching-off cases |
| Negotiation.TimedReachable | EVT/EXAM/ETH/NetLib/eth_driver_10M.c:105-108 | the wrapping clock and phyLinkTime are the real times modulo 2^32 in every reachable state |
| Negotiation.PowerDownDwell | EVT/EXAM/ETH/NetLib/eth_driver_10M.c:284-292 | the internal PHY is switched on again no sooner than 500 real milliseconds after it was last switched off, across any clock wraps; then there is no link and no polarity check, the search is at its beginning in AUTO, and TRDetectCnt is as it was |
| Negotiation.DwellEnds | EVT/EXAM/ETH/NetLib/eth_driver_10M.c:284-292 | within one clock period, a main-task call ends the dwell exactly when 500 ms have passed since the last stamp |
| Negotiation.InterruptPower | EVT/EXAM/ETH/NetLib/eth_driver_10M.c:470-560 | the interrupt never switches the internal PHY on |
| Negotiation.SearchPace | EVT/EXAM/ETH/NetLib/eth_driver_10M.c:296-302 | a run of the search in its second stage comes at least 50 real milliseconds after the run before it |
| NegotiationRecovery.QuietStep | EVT/EXAM/ETH/NetLib/eth_driver_10M.c:294-304 | between runs of the search the distance to the next reset does not move |
| NegotiationRecovery.QuietRun | EVT/EXAM/ETH/NetLib/eth_driver_10M.c:294-304 | over a quiet stretch the distance falls by the number of runs of the search |
| NegotiationRecovery.MainTaskRecovers | EVT/EXAM/ETH/NetLib/eth_driver_10M.c:282-304 | from every reachable unlinked state the PHY is reset if and only if the search has run the predicted number of times, at most 122 |
| NegotiationRecovery.HandleIsRecent | EVT/EXAM/ETH/NetLib/eth_driver_10M.c:296-302 | every main-task call of a quiet unlinked driver leaves phyLinkTime less than 150 ms back |
| NegotiationRecovery.WaitingRun | EVT/EXAM/ETH/NetLib/eth_driver_10M.c:297-297 | while the search does not run, the wrapped difference grows with real time |
| NegotiationRecovery.StretchSearches | EVT/EXAM/ETH/NetLib/eth_driver_10M.c:294-304 | the search runs at least once in any stretch of 149 ms that ends with a main-task call |
| NegotiationRecovery.StretchesCountDown | EVT/EXAM/ETH/NetLib/eth_driver_10M.c:218-304 | every such stretch brings the reset at least one call nearer |
| NegotiationRecovery.ResetInTime | EVT/EXAM/ETH/NetLib/eth_driver_10M.c:218-304 | from every reachable unlinked state a driver that sees no partner resets the PHY within 122 such stretches, whatever the clock reads |
| LinkOutcomes.DownOutcome | EVT/EXAM/ETH/NetLib/eth_driver_10M.c:541-559 | the whole state after a link-down interrupt |
| LinkOutcomes.NegotiatedOutcome | EVT/EXAM/ETH/NetLib/eth_driver_10M.c:507-534 | the whole state after an interrupt with a negotiating partner: full duplex exactly by status bit 2 or a selector other than 1 |
| LinkOutcomes.SilentOutcome | EVT/EXAM/ETH/NetLib/eth_driver_10M.c:482-506 | the whole state after an interrupt without negotiation or with a silent partner, the polarity written included |
| LinkOutcomes.DwellOutcome | EVT/EXAM/ETH/NetLib/eth_driver_10M.c:284-292 | the dwell ends at 500 ms with the PHY on and everything started over |
| LinkOutcomes.SeekOutcome | EVT/EXAM/ETH/NetLib/eth_driver_10M.c:294-304 | the search runs exactly when its period is over or a partner has appeared before step 2 |
| LinkOutcomes.ReinitCheckOutcome | EVT/EXAM/ETH/NetLib/eth_driver_10M.c:306-318 | 250 ms after a re-initialisation a link without status bit 2 is reported and started over, once |
| LinkOutcomes.PolarityCheckOutcome | EVT/EXAM/ETH/NetLib/eth_driver_10M.c:119-141 | three or more broken frames alone turn the polarity field; a good frame ends the checking and clears bits 0 and 31 of MACFFR |
| LinkOutcomes.LinkedOutcome | EVT/EXAM/ETH/NetLib/eth_driver_10M.c:305-326 | a link is looked at after a re-initialisation, and checked 100 ms after the last check |
| LinkOutcomes.ReceiveOutcome | EVT/EXAM/ETH/NetLib/eth_driver_10M.c:571-648 | the whole state after a re-initialisation, with and without a link |
| LinkRuns.CallResets | EVT/EXAM/ETH/NetLib/eth_driver_10M.c:266-267 | a call of the search writes a PHY reset only when it starts over |
| LinkRuns.EveryResetStartsOver | EVT/EXAM/ETH/NetLib/eth_driver.h:146-149 | in every reachable state, whichever event writes a PHY reset leaves no link, no polarity check and a fresh search |
| LinkRuns.MacFollowsLink | EVT/EXAM/ETH/NetLib/eth_driver_10M.c:439-538 | in every reachable state with a link the MAC runs at 10M in the duplex of the last link-up |
| LinkRuns.SearchResumes | EVT/EXAM/ETH/NetLib/eth_driver_10M.c:282-304 | from every reachable state, after a link-down and 500 ms, one main-task call switches the PHY on and the next one searches |
| LinkRuns.BrokenRound | EVT/EXAM/ETH/NetLib/eth_driver_10M.c:119-141 | a check that finds broken frames only turns P to N or N to P and goes on checking |
| LinkRuns.BrokenChecksAlternate | EVT/EXAM/ETH/NetLib/eth_driver_10M.c:119-141 | over any number of such checks the two alternate, with the rest of MDIX and the filter as they were |
| LinkRuns.GoodFrameEnds | EVT/EXAM/ETH/NetLib/eth_driver_10M.c:135-140 | the first good frame ends the checking in the polarity reached |
| ParallelDetection.Remembered | EVT/EXAM/ETH/NetLib/eth_driver_10M.c:488-501 | in every reachable state a turned polarity is remembered together with LAST_NEGO_STAT |
| ParallelDetection.OthersKeepMemory | EVT/EXAM/ETH/NetLib/eth_driver_10M.c:282-328 | only detections, link-downs and negotiating partners touch phyNegoStat and phyNegoLinkTime |
| ParallelDetection.DetectionChooses | EVT/EXAM/ETH/NetLib/eth_driver_10M.c:484-502 | a detected link takes the remembered polarity and keeps it in memory |
| ParallelDetection.LinkDownTurns | EVT/EXAM/ETH/NetLib/eth_driver_10M.c:541-559 | a link-down turns the memory and clears phyNegoLinkTime exactly when less than 100 ms lie between the two readings of the clock |
| ParallelDetection.YoungIffTurnsNow | EVT/EXAM/ETH/NetLib/eth_driver_10M.c:550-555 | the age test of the code in terms of the events: elapsed milliseconds below 100 for the first turn, LocalTime below 100 for a further one |
| ParallelDetection.MemoryTurns | EVT/EXAM/ETH/NetLib/eth_driver_10M.c:484-558 | over any run without a detection or a negotiating partner, repeated link-downs included, the memory turns exactly as often as the events say |
| ParallelDetection.MemoryStaysClear | EVT/EXAM/ETH/NetLib/eth_driver_10M.c:507-508 | once a negotiating partner was found, only a detection fills the memory again |
| ParallelDetection.NextDetection | EVT/EXAM/ETH/NetLib/eth_driver_10M.c:484-558 | for any two consecutive detections in a run from the start, whatever lies between: P if a negotiating partner was found in between, otherwise the other polarity exactly when the memory turned an odd number of times |
| ParallelDetection.ShortLinkTurnsOnce | EVT/EXAM/ETH/NetLib/eth_driver_10M.c:546-558 | within one clock period, and with no later link-down below a clock reading of 100, the memory turns once after a link shorter than 100 ms and not at all otherwise |
| ParallelDetection.ShortLinkTurnsPolarity | EVT/EXAM/ETH/NetLib/eth_driver_10M.c:484-558 | under those conditions, with no negotiating partner and no other detection in between, the next detected link uses the other polarity if and only if this one was shorter than 100 ms |
| ParallelDetection.SecondDownTurnsBack | EVT/EXAM/ETH/NetLib/eth_driver_10M.c:546-558 | the failing input: two link-downs within the first 100 ms of the clock, and the polarity is the same after a 5 ms link |
| Driver10M.Driver.constructor | EVT/EXAM/ETH/NetLib/eth_driver_10M.c:53-73 | the globals and the PHY after ETH_Init form a start state |
| Driver10M.Driver.RestartAutoNegotiation | EVT/EXAM/ETH/NetLib/eth_driver.h:79-87 | the two read-modify-writes of BCR refine the restart of negotiation |
| Driver10M.Driver.SwitchTr | EVT/EXAM/ETH/NetLib/eth_driver.h:89-103 | in-place form of the crossover switch |
| Driver10M.Driver.ReverseTr | EVT/EXAM/ETH/NetLib/eth_driver.h:105-120 | in-place form of the crossover reversal |
| Driver10M.Driver.SwitchPn | EVT/EXAM/ETH/NetLib/eth_driver.h:122-133 | in-place form of the polarity switch, through the 8-bit phyPN |
| Driver10M.Driver.InitParameters | EVT/EXAM/ETH/NetLib/eth_driver.h:135-144 | in-place form of the parameter initialisation |
| Driver10M.Driver.ResetSearch | EVT/EXAM/ETH/NetLib/eth_driver.h:146-149 | in-place form of the link reset |
| Driver10M.Driver.ResetLink | EVT/EXAM/ETH/NetLib/eth_driver.h:146-149 | the link reset changes nothing outside the search |
| Driver10M.Driver.AccelerateLinkProcess | EVT/EXAM/ETH/NetLib/eth_driver.h:63-66 | in-place form of the accelerator |
| Driver10M.Driver.UpdateLinkTaskPeriod | EVT/EXAM/ETH/NetLib/eth_driver.h:68-77 | in-place form of the period update |
| Driver10M.Driver.PartnerSeen | EVT/EXAM/ETH/NetLib/eth_driver_10M.c:187-216 | the branches of a call that sees a partner refine the search step |
| Driver10M.Driver.NoPartner | EVT/EXAM/ETH/NetLib/eth_driver_10M.c:233-269 | the post-incremented counter tests refine the fallback by phase |
| Driver10M.Driver.ProcessLink | EVT/EXAM/ETH/NetLib/eth_driver_10M.c:170-271 | the whole function refines the search step |
| Driver10M.Driver.RunLinkProcess | EVT/EXAM/ETH/NetLib/eth_driver_10M.c:170-271 | and changes nothing outside the search |
| Driver10M.Driver.SearchNow | EVT/EXAM/ETH/NetLib/eth_driver_10M.c:297-302 | a due run draws the period first, stamps the time and searches |
| Driver10M.Driver.TurnPolarity | EVT/EXAM/ETH/NetLib/eth_driver_10M.c:126-131 | in-place form of the polarity turn |
| Driver10M.Driver.PhyPNProcess | EVT/EXAM/ETH/NetLib/eth_driver_10M.c:119-141 | in-place form of the polarity check, counter reset included |
| Driver10M.Driver.CheckLinkAfterReinit | EVT/EXAM/ETH/NetLib/eth_driver_10M.c:306-318 | in-place form of the check after a re-initialisation; it looks at BMSR only |
| Driver10M.Driver.SeekPartner | EVT/EXAM/ETH/NetLib/eth_driver_10M.c:294-304 | in-place form of the unlinked branch |
| Driver10M.Driver.HandleNegotiation | EVT/EXAM/ETH/NetLib/eth_driver_10M.c:282-328 | the whole main-task function refines its step and keeps the invariant |
| Driver10M.Driver.SaveAndReset | EVT/EXAM/ETH/NetLib/eth_driver_10M.c:586-635 | all eight saved registers survive a software reset that leaves anything in them |
| Driver10M.Driver.ResetMac | EVT/EXAM/ETH/NetLib/eth_driver_10M.c:586-635 | and nothing else changes |
| Driver10M.Driver.ReInitMACReg | EVT/EXAM/ETH/NetLib/eth_driver_10M.c:571-648 | in-place form of the re-initialisation with its two reversals |
| Driver10M.Driver.RecProcess | EVT/EXAM/ETH/NetLib/eth_driver_10M.c:152-159 | re-initialisation exactly on an overflow of the chip revision concerned; keeps the invariant |
| Driver10M.Driver.ConfigureLinkUp | EVT/EXAM/ETH/NetLib/eth_driver_10M.c:439-459 | in-place form of the link-up configuration |
| Driver10M.Driver.ParallelDetected | EVT/EXAM/ETH/NetLib/eth_driver_10M.c:484-502 | in-place form of link-up towards a partner that does not negotiate |
| Driver10M.Driver.SelectPolarity | EVT/EXAM/ETH/NetLib/eth_driver_10M.c:488-501 | in-place form of the polarity choice after parallel detection |
| Driver10M.Driver.Negotiated | EVT/EXAM/ETH/NetLib/eth_driver_10M.c:507-534 | in-place form of the branch for a negotiating partner |
| Driver10M.Driver.LinkDown | EVT/EXAM/ETH/NetLib/eth_driver_10M.c:541-559 | in-place form of link-down |
| Driver10M.Driver.PHYLink | EVT/EXAM/ETH/NetLib/eth_driver_10M.c:470-560 | the whole interrupt function refines its step and keeps the invariant |
| Driver10M.Driver.TimeIsr | EVT/EXAM/ETH/NetLib/eth_driver_10M.c:105-108 | the clock wraps at 2^32; keeps the invariant |
| RandomInterval.IterateIsOrbit | EVT/EXAM/ETH/NetLib/eth_driver.h:71-71 | the 32-bit generator is the unbounded recurrence reduced modulo 2^32 |
| RandomInterval.JumpByPowerOfTwo | EVT/EXAM/ETH/NetLib/eth_driver.h:71-71 | 2^k updates move any value by an odd multiple of 2^k |
| RandomInterval.JumpByMultiple | EVT/EXAM/ETH/NetLib/eth_driver.h:71-71 | m times 2^k updates move it by 2^k times a number of the parity of m |
| RandomInterval.NoEarlyReturn | EVT/EXAM/ETH/NetLib/eth_driver.h:68-77 | fewer than 2^32 updates never return to the seed |
| RandomInterval.Period | EVT/EXAM/ETH/NetLib/eth_driver.h:68-77 | 2^32 updates do |
| RandomInterval.NoRepeat | EVT/EXAM/ETH/NetLib/eth_driver.h:68-77 | no value repeats within 2^32 updates |
| RandomInterval.EveryValueDrawn | EVT/EXAM/ETH/NetLib/eth_driver.h:68-77 | every 32-bit value is drawn among them |
| RandomInterval.FullCycle | EVT/EXAM/ETH/NetLib/eth_driver.h:68-77 | the generator is one cycle through all 2^32 values, from any seed |
| TxRing.SlotsDiffer | EVT/EXAM/SRC/Peripheral/src/ch32v30x_eth.c:707-731 | fewer than n positions apart, two frames use different descriptors |
| TxRing.CursorIsFree | EVT/EXAM/ETH/NetLib/eth_driver_10M.c:821-828 | the CPU cursor is outside the run of owned descriptors while a call fills it |
| TxRing.FillKeepsValid | EVT/EXAM/ETH/NetLib/eth_driver_10M.c:827-835 | filling a descriptor neither moves a boundary nor shows the DMA engine anything |
| TxRing.HandOverKeepsValid | EVT/EXAM/ETH/NetLib/eth_driver_10M.c:837-838 | storing OWN last extends the run by one complete descriptor |
| TxRing.WakeKeepsValid | EVT/EXAM/ETH/NetLib/eth_driver_10M.c:840-843 | the poll demand keeps the invariant and leaves no suspended engine behind |
| TxRing.AdvanceKeepsValid | EVT/EXAM/ETH/NetLib/eth_driver_10M.c:845-850 | moving the cursor along the chain keeps it at the first free position |
| TxRing.DmaFetchKeepsValid | EVT/EXAM/ETH/NetLib/eth_driver_10M.c:818-851 | what the engine latches, word by word, is the oldest unsent frame, never a half-written one |
| TxRing.DmaReturnsDescriptor | EVT/EXAM/ETH/NetLib/eth_driver_10M.c:818-851 | the write-back shortens the run at its old end and does not disturb a call in progress |
| TxRing.RingFullTest | EVT/EXAM/ETH/NetLib/eth_driver_10M.c:821-825 | OWN under the cursor is set exactly when n frames are unsent |
| TxRing.StepKeepsValid | EVT/EXAM/ETH/NetLib/eth_driver_10M.c:818-851 | every access of either side keeps the ring invariant |
| TxRing.StartIsValid | EVT/EXAM/SRC/Peripheral/src/ch32v30x_eth.c:707-731 | the chained ring satisfies it |
| TxRing.RunKeepsValid | EVT/EXAM/ETH/NetLib/eth_driver_10M.c:818-851 | so does every ring reached by any interleaving |
| TxRing.SentOnceInOrder | EVT/EXAM/ETH/NetLib/eth_driver_10M.c:818-851 | for any size and interleaving, successful frames go out once and in order, with at most n inside |
| TxRing.RefinesFifo | EVT/EXAM/ETH/NetLib/eth_driver_10M.c:818-851 | every access is an enabled step of a bounded FIFO or invisible to it |
| TxRing.PutRefines | EVT/EXAM/ETH/NetLib/eth_driver_10M.c:837-838 | the OWN store is the enqueue, and there is room |
| TxRing.TakeRefines | EVT/EXAM/ETH/NetLib/eth_driver_10M.c:818-851 | the write-back is the dequeue of the oldest frame |
| TxRing.RefusedIffFull | EVT/EXAM/ETH/NetLib/eth_driver_10M.c:821-825 | a call is refused exactly when the FIFO is full, and a refusal changes nothing |
| TxRing.DmaStepWorks | EVT/EXAM/ETH/NetLib/eth_driver_10M.c:840-843 | with no call in progress each engine step does one unit of the work left |
| TxRing.EverythingGoesOut | EVT/EXAM/ETH/NetLib/eth_driver_10M.c:840-843 | no lost wake-up: left alone, the engine sends every accepted frame |
| TxWire.HandedOver | EVT/EXAM/ETH/NetLib/eth_driver_10M.c:826-838 | at the OWN store the descriptor holds bit 31, the segment bits, the 13 low bits of the length and the buffer of its call |
| TxWire.RunCommits | EVT/EXAM/ETH/NetLib/eth_driver_10M.c:818-851 | what is accepted, and what the call in progress will add, is what the calls not refused asked for |
| TxWire.WireCarriesRequests | EVT/EXAM/ETH/NetLib/eth_driver_10M.c:818-851 | for any size and interleaving the k-th frame on the wire has the length and buffer of the k-th call not refused |
| TxRing.TxDriver.constructor | EVT/EXAM/SRC/Peripheral/src/ch32v30x_eth.c:707-731 | the initialisation loop builds the chained ring, gives every descriptor its buffer, and puts both cursors at the start |
| TxRing.TxDriver.Engine | EVT/EXAM/ETH/NetLib/eth_driver_10M.c:818-851 | one step of the DMA engine on the descriptor array |
| TxRing.TxDriver.TestOwn | EVT/EXAM/ETH/NetLib/eth_driver_10M.c:821-825 | the test succeeds exactly on a full ring |
| TxRing.TxDriver.StoreControl | EVT/EXAM/ETH/NetLib/eth_driver_10M.c:827-827 | the length store, then any engine activity |
| TxRing.TxDriver.StoreAddress | EVT/EXAM/ETH/NetLib/eth_driver_10M.c:828-828 | the address store, then any engine activity |
| TxRing.TxDriver.OrMarks | EVT/EXAM/ETH/NetLib/eth_driver_10M.c:831-835 | the segment bits by a load and a store with engine activity between them |
| TxRing.TxDriver.OrOwn | EVT/EXAM/ETH/NetLib/eth_driver_10M.c:838-838 | the hand-over adds exactly this frame |
| TxRing.TxDriver.WakeEngine | EVT/EXAM/ETH/NetLib/eth_driver_10M.c:840-843 | the poll demand |
| TxRing.TxDriver.AdvanceCursor | EVT/EXAM/ETH/NetLib/eth_driver_10M.c:848-850 | the cursor step and the success reply |
| TxRing.TxDriver.TxPktChainMode | EVT/EXAM/ETH/NetLib/eth_driver_10M.c:818-851 | success exactly below n unsent frames, and then the frame with the length modulo 8192 is queued last; otherwise nothing has changed |
| SdiMailbox.WordBytes | EVT/EXAM/SRC/Debug/debug.c:195-204 | four shifted bytes make a 32-bit word from which they can be read back |
| SdiMailbox.PacketRoundTrip | EVT/EXAM/SRC/Debug/debug.c:193-222 | the host decodes exactly the packet, and a packet never looks like a free mailbox |
| SdiMailbox.PacketLayout | EVT/EXAM/SRC/Debug/debug.c:193-222 | the place of every byte of a packet in the two words |
| SdiMailbox.WriterKeepsValid | EVT/EXAM/SRC/Debug/debug.c:179-224 | every access of the writer keeps printed and unread text a prefix of the text |
| SdiMailbox.HostKeepsValid | EVT/EXAM/SRC/Debug/debug.c:188-191 | so does every access of the host |
| SdiMailbox.RunKeepsValid | EVT/EXAM/SRC/Debug/debug.c:174-224 | and every interleaving of the two |
| SdiMailbox.NothingLost | EVT/EXAM/SRC/Debug/debug.c:174-224 | no byte is lost, repeated or reordered, no unread packet is overwritten, and a call takes ceil(size / 7) packets |
| SdiMailbox.StepProgress | EVT/EXAM/SRC/Debug/debug.c:179-224 | every access is an idle poll or uses up one of the accesses left, and the enabled party never idles |
| SdiMailbox.StretchProgress | EVT/EXAM/SRC/Debug/debug.c:179-224 | a stretch in which the enabled party runs makes progress |
| SdiMailbox.FairProgress | EVT/EXAM/SRC/Debug/debug.c:179-224 | k fair stretches make k accesses of progress, or all that are left |
| SdiMailbox.EverythingPrinted | EVT/EXAM/SRC/Debug/debug.c:174-241 | with a responsive host the call ends and everything is printed, within six fair rounds a packet |
| SdiMailbox.SdiPort.constructor | EVT/EXAM/SRC/Debug/debug.c:157-162 | the mailbox starts free |
| SdiMailbox.SdiPort.AwaitFree | EVT/EXAM/SRC/Debug/debug.c:188-191 | the busy-wait ends with a free mailbox and everything before it printed |
| SdiMailbox.SdiPort.PutFull | EVT/EXAM/SRC/Debug/debug.c:193-208 | DATA1 before DATA0, seven bytes from position i |
| SdiMailbox.SdiPort.PutLast | EVT/EXAM/SRC/Debug/debug.c:209-222 | the last one to seven bytes, padded with zeros |
| SdiMailbox.SdiPort.Write | EVT/EXAM/SRC/Debug/debug.c:174-241 | the text grows by exactly the buffer, in ceil(size / 7) packets, with the host running in between |
| MiiSupervision.CheckPhyPnKeepsValid | EVT/EXAM/ETH/NetLib/eth_driver_MII.c:121-161 | the polarity check keeps the invariant, page discipline included |
| MiiSupervision.AccelerateKeepsValid | EVT/EXAM/ETH/NetLib/eth_driver_MII.c:170-225 | so does the accelerator |
| MiiSupervision.AccelerateForward | EVT/EXAM/ETH/NetLib/eth_driver_MII.c:170-225 | the accelerator holds its step or moves one forward, with the power-down bit set and cleared at the right moves |
| MiiSupervision.CheckLinkValidKeepsValid | EVT/EXAM/ETH/NetLib/eth_driver_MII.c:234-266 | the validity check keeps the invariant |
| MiiSupervision.QueryKeepsValid | EVT/EXAM/ETH/NetLib/eth_driver_MII.c:102-112 | the status query keeps the invariant |
| MiiSupervision.TaskKeepsValid | EVT/EXAM/ETH/NetLib/eth_driver_MII.c:275-301 | the 10 ms task keeps the invariant |
| MiiSupervision.Reachable | EVT/EXAM/ETH/NetLib/eth_driver_MII.c:102-301 | link up implies both steps 0 and LinkProcessingTime at most 4, a valid link is up with a zero count, AccelerateLinkTime never wraps, every paged register is touched on its page |
| MiiSupervision.SettledIsFirstNonzero | EVT/EXAM/ETH/NetLib/eth_driver_MII.c:435-444 | the retry loop yields the first non-zero word of seventeen readings, zero only if all are |
| MiiRuns.QueryOutcome | EVT/EXAM/ETH/NetLib/eth_driver_MII.c:102-112 | the exact outcome of one status query: when it links up, when it takes the link down, and when it does nothing |
| MiiRuns.LinkUpOutcome | EVT/EXAM/ETH/NetLib/eth_driver_MII.c:366-399 | a link-up sets MACCR bits 14 and 11 by BCR bits 13 and 8, turns the MAC on, stops the aids and puts the link timer back |
| MiiRuns.NoLinkUpOutcome | EVT/EXAM/ETH/NetLib/eth_driver_MII.c:102-112 | a query that does not link up leaves MAC, aids and PHY registers alone |
| MiiRuns.MacFollowsLastLinkUp | EVT/EXAM/ETH/NetLib/eth_driver_MII.c:366-399 | in every reachable state of an up link the MAC has the speed and duplex that BCR showed at the last link-up |
| MiiRuns.StaysDownIff | EVT/EXAM/ETH/NetLib/eth_driver_MII.c:102-112 | a link that is down stays down throughout a run if and only if no query in it reads a due, new, settled word with a usable link |
| MiiRuns.FiveAtTheEnd | EVT/EXAM/ETH/NetLib/eth_driver_MII.c:249-264 | a sample completes five bad ones in a row exactly when it is bad and four stood at the end |
| MiiRuns.SupervisionSample | EVT/EXAM/ETH/NetLib/eth_driver_MII.c:247-264 | one sample moves the counter and ends the link as the sample history demands |
| MiiRuns.SupervisionStep | EVT/EXAM/ETH/NetLib/eth_driver_MII.c:275-301 | any event keeps counter and samples in agreement, and ends an up link only at a status word without a link or at the fifth bad sample |
| MiiRuns.Supervision | EVT/EXAM/ETH/NetLib/eth_driver_MII.c:234-301 | in every run from the start the counter is the trailing run of bad samples since the last link-up, and a link ends exactly at a status word without a link or at the fifth bad sample in a row |
| MiiRuns.ValidUntilDown | EVT/EXAM/ETH/NetLib/eth_driver_MII.c:236-245 | a link declared valid stays so, unsupervised, if and only if no query finds it gone |
| MiiRuns.SecondLinkUpIsNotSupervised | EVT/EXAM/ETH/NetLib/eth_driver_MII.c:366-399 | a failing input: a link valid at 10M that links up again at 100M is never sampled |
| MiiRuns.SameWordStaysDown | EVT/EXAM/ETH/NetLib/eth_driver_MII.c:108-110 | queries that read the word last acted on never link up |
| MiiRuns.TornDownForGood | EVT/EXAM/ETH/NetLib/eth_driver_MII.c:234-266 | the failing input: from the start, a link-up, five bad samples, and a PHY that keeps reporting the same link stays down for good |
| MiiOutcomes.StatusWordMeaning | EVT/EXAM/ETH/NetLib/eth_driver_MII.c:435-444 | the word a query goes by, on a new and on an old chip |
| MiiOutcomes.PolarityOutcome | EVT/EXAM/ETH/NetLib/eth_driver_MII.c:121-161 | the whole state after a polarity check, with the six accesses of the pulse |
| MiiOutcomes.AidOutcome | EVT/EXAM/ETH/NetLib/eth_driver_MII.c:170-225 | the whole state after each step of the accelerator, with its accesses |
| MiiOutcomes.ValidityOutcome | EVT/EXAM/ETH/NetLib/eth_driver_MII.c:234-266 | the whole state after a validity check, with the PHY reset and the BCR put back at the fifth bad sample |
| MiiOutcomes.TaskOutcome | EVT/EXAM/ETH/NetLib/eth_driver_MII.c:275-301 | when the task runs and which of the checks it makes |
| MiiOutcomes.AidsAgree | EVT/EXAM/ETH/NetLib/eth_driver_MII.c:170-225 | in every reachable state power-down bit, register 0x18 and link timer agree with AccelerateLinkStep |
| MiiOutcomes.Deadline | EVT/EXAM/ETH/NetLib/eth_driver_MII.c:121-161 | in every reachable state the deadline of a polarity turn is 300 ms after the arming look, or 200 ms at a forced 10M, unless a status word without a link was taken since, and then it is 0 |
| MiiOutcomes.TurnComesEarly | EVT/EXAM/ETH/NetLib/eth_driver_MII.c:410-415 | a failing input: with such a word in between, the polarity is turned 20 ms after the first look |
| MiiSupervision.PowerDownBegins | EVT/EXAM/ETH/NetLib/eth_driver_MII.c:176-193 | leaving step 0 powers the PHY down |
| MiiSupervision.DwellStep | EVT/EXAM/ETH/NetLib/eth_driver_MII.c:195-208 | an event without a link-up advances the dwell by its step-1 calls only, and the 122nd ends it |
| MiiSupervision.PowerDownDwell | EVT/EXAM/ETH/NetLib/eth_driver_MII.c:170-225 | without a link-up the PHY stays powered down for exactly 122 step-1 calls, at least 1220 ms |
| MiiSupervision.AccStepForward | EVT/EXAM/ETH/NetLib/eth_driver_MII.c:170-225 | AccelerateLinkStep only moves forward until a link-up resets it |
| DriverMii.Driver.constructor | EVT/EXAM/ETH/NetLib/eth_driver_MII.c:50-59 | the initial globals form a start state |
| DriverMii.Driver.ConfigureLinkUp | EVT/EXAM/ETH/NetLib/eth_driver_MII.c:366-399 | in-place form of the link-up configuration |
| DriverMii.Driver.SetMacMode | EVT/EXAM/ETH/NetLib/eth_driver_MII.c:370-388 | MACCR follows speed and duplex of BCR |
| DriverMii.Driver.ConfigureLinkDown | EVT/EXAM/ETH/NetLib/eth_driver_MII.c:410-415 | in-place form of the link-down configuration |
| DriverMii.Driver.SettleStatus | EVT/EXAM/ETH/NetLib/eth_driver_MII.c:435-444 | the loop computes the settled status word |
| DriverMii.Driver.PHYLink | EVT/EXAM/ETH/NetLib/eth_driver_MII.c:426-471 | in-place form of the status evaluation |
| DriverMii.Driver.QueryStatus | EVT/EXAM/ETH/NetLib/eth_driver_MII.c:102-112 | in-place form of the query; keeps the invariant |
| DriverMii.Driver.CheckPHYPN | EVT/EXAM/ETH/NetLib/eth_driver_MII.c:121-161 | in-place form of the polarity check |
| DriverMii.Driver.PulsePolarity | EVT/EXAM/ETH/NetLib/eth_driver_MII.c:143-152 | the six accesses of the polarity pulse, in order |
| DriverMii.Driver.Accelerate | EVT/EXAM/ETH/NetLib/eth_driver_MII.c:170-225 | in-place form of the accelerator |
| DriverMii.Driver.CheckValid | EVT/EXAM/ETH/NetLib/eth_driver_MII.c:234-266 | in-place form of the validity check |
| DriverMii.Driver.AidLink | EVT/EXAM/ETH/NetLib/eth_driver_MII.c:282-296 | in-place form of the task on a link that is down |
| DriverMii.Driver.RunLinkProcessing | EVT/EXAM/ETH/NetLib/eth_driver_MII.c:275-301 | in-place form of the 10 ms task; keeps the invariant |
| DriverMii.Driver.TimeIsr | EVT/EXAM/ETH/NetLib/eth_driver_MII.c:90-93 | the clock wraps at 2^32; keeps the invariant |
| ClockTree.SelectHsiFirst | C++/Use MRS Create C++ project-example/CH32V307VCT6/User/system_ch32v30x.c:111-120 | from any registers HSI is on and selected before another source is switched off |
| ClockTree.InitIsSafe | C++/Use MRS Create C++ project-example/CH32V307VCT6/User/system_ch32v30x.c:109-131 | every write of SystemInit is safe and it ends on HSI with the PLL configurable |
| ClockTree.PllInputIsSafe | C++/Use MRS Create C++ project-example/CH32V307VCT6/User/system_ch32v30x.c:345-352 | PLLSRC, PLLXTPRE and PLLMULL change only while the PLL is off |
| ClockTree.StartPllIsSafe | C++/Use MRS Create C++ project-example/CH32V307VCT6/User/system_ch32v30x.c:354-359 | enabling the PLL and waiting for it is safe |
| ClockTree.SelectPllIsSafe | C++/Use MRS Create C++ project-example/CH32V307VCT6/User/system_ch32v30x.c:360-362 | SW selects the PLL only after it was enabled and seen ready |
| ClockTree.BringUpPllIsSafe | C++/Use MRS Create C++ project-example/CH32V307VCT6/User/system_ch32v30x.c:354-362 | the two together |
| ClockTree.PllIsSafe | C++/Use MRS Create C++ project-example/CH32V307VCT6/User/system_ch32v30x.c:338-366 | the common part of the PLL presets is safe throughout, and what it leaves in CFGR0 |
| ClockTree.HseIsSafe | C++/Use MRS Create C++ project-example/CH32V307VCT6/User/system_ch32v30x.c:281-295 | the HSE preset is safe once the oscillator was seen ready |
| ClockTree.PresetIsSafe | C++/Use MRS Create C++ project-example/CH32V307VCT6/User/system_ch32v30x.c:257-1010 | every write of every preset is safe, whether or not the oscillator comes up |
| ClockTree.BootIsSafe | C++/Use MRS Create C++ project-example/CH32V307VCT6/User/system_ch32v30x.c:109-131 | from any registers, SystemInit and any preset are safe at every single write |
| ClockTree.MultiplierTable | C++/Use MRS Create C++ project-example/CH32V307VCT6/Peripheral/inc/ch32v30x.h:4450-4482 | the computed multiplier is the table of the header, for every field value and both encodings |
| ClockTree.DivisorTable | C++/Use MRS Create C++ project-example/CH32V307VCT6/User/system_ch32v30x.c:196-197 | the shift table stands for the divisors 1 to 512 |
| ClockTree.CoreClockIsFloor | C++/Use MRS Create C++ project-example/CH32V307VCT6/User/system_ch32v30x.c:140-202 | for all registers SystemCoreClock is the floor of the exact rational frequency given by the bits of source and PLL input and the two tables, and at most 144 MHz |
| ClockTree.DecodedExamples | C++/Use MRS Create C++ project-example/CH32V307VCT6/User/system_ch32v30x.c:155-192 | 24, 52 and 36 MHz for three settings outside the presets |
| ClockTree.PresetDecodes | C++/Use MRS Create C++ project-example/CH32V307VCT6/Peripheral/inc/ch32v30x.h:4449-4482 | the multiplier written for a preset decodes to its factor on both tables |
| ClockTree.RoundTrip | C++/Use MRS Create C++ project-example/CH32V307VCT6/User/system_ch32v30x.c:140-202 | after SystemInit and any preset SW selects the preset's source, and SystemCoreClockUpdate gives its frequency, or HSI if the oscillator failed |
| ClockRegisters.SystemInitWords | C++/Use MRS Create C++ project-example/CH32V307VCT6/User/system_ch32v30x.c:111-129 | the masks of the code as the bits they clear or set |
| ClockRegisters.InitRegisters | C++/Use MRS Create C++ project-example/CH32V307VCT6/User/system_ch32v30x.c:109-131 | the registers after SystemInit, from arbitrary contents |
| ClockRegisters.PresetRegisters | C++/Use MRS Create C++ project-example/CH32V307VCT6/User/system_ch32v30x.c:257-1010 | the registers after any preset, bit by bit |
| ClockRegisters.BootRegisters | C++/Use MRS Create C++ project-example/CH32V307VCT6/User/system_ch32v30x.c:109-131 | after SystemInit and any preset the AHB and the fast APB bus run undivided, the slow one at half speed exactly with the PLL, and the sources, interrupt clears and PLL2 setting are as stated |
| ClockDriver.Clock.PollHse | C++/Use MRS Create C++ project-example/CH32V307VCT6/User/system_ch32v30x.c:321-325 | the poll stops at the first ready flag or after 0x1000 reads |
| ClockDriver.Clock.StartHse | C++/Use MRS Create C++ project-example/CH32V307VCT6/User/system_ch32v30x.c:319-334 | after the poll one more read decides whether the oscillator is taken as ready |
| ClockDriver.Clock.AwaitPll | C++/Use MRS Create C++ project-example/CH32V307VCT6/User/system_ch32v30x.c:356-359 | the wait ends with PLLRDY seen |
| ClockDriver.Clock.SystemInit | C++/Use MRS Create C++ project-example/CH32V307VCT6/User/system_ch32v30x.c:109-131 | the read-modify-writes perform exactly the listed operations, whatever flags they read |
| ClockDriver.Clock.SelectPll | C++/Use MRS Create C++ project-example/CH32V307VCT6/User/system_ch32v30x.c:338-366 | so does the common part of the PLL presets |
| ClockDriver.Clock.SetSysClockToHse | C++/Use MRS Create C++ project-example/CH32V307VCT6/User/system_ch32v30x.c:257-303 | and the HSE preset, with the poll bounded |
| ClockDriver.Clock.SetSysClockToHsePll | C++/Use MRS Create C++ project-example/CH32V307VCT6/User/system_ch32v30x.c:314-743 | and the six HSE PLL presets |
| ClockDriver.Clock.SetSysClockToHsiPll | C++/Use MRS Create C++ project-example/CH32V307VCT6/User/system_ch32v30x.c:754-1010 | and the six HSI PLL presets |
| ClockDriver.Clock.AdjustedMultiplier | C++/Use MRS Create C++ project-example/CH32V307VCT6/User/system_ch32v30x.c:155-168 | the chain of assignments computes the multiplier table, 6.5 marked apart |
| ClockDriver.Clock.PllOutput | C++/Use MRS Create C++ project-example/CH32V307VCT6/User/system_ch32v30x.c:155-192 | the branches compute input times multiplier, halved last for 6.5 |
| ClockDriver.Clock.SystemCoreClockUpdate | C++/Use MRS Create C++ project-example/CH32V307VCT6/User/system_ch32v30x.c:140-202 | the reassignments of SystemCoreClock compute the decoded clock |
| ClockDriver.BootHistory | C++/Use MRS Create C++ project-example/CH32V307VCT6/User/system_ch32v30x.c:211-245 | every write of a whole boot is safe, and decoding after it gives the preset's frequency |
| ClockDriver.Clock.BootHsePll | C++/Use MRS Create C++ project-example/CH32V307VCT6/User/system_ch32v30x.c:109-131 | from reset to the measured clock with an HSE PLL preset: all writes safe, poll bounded, clock as preset or HSI |
| ClockDriver.Clock.BootHse | C++/Use MRS Create C++ project-example/CH32V307VCT6/User/system_ch32v30x.c:257-303 | the same for the HSE preset |
| ClockDriver.Clock.BootHsiPll | C++/Use MRS Create C++ project-example/CH32V307VCT6/User/system_ch32v30x.c:754-1010 | the same for the HSI PLL presets |
| Delay.FactorsExactIff | EVT/EXAM/SRC/Debug/debug.c:28-32 | the 8- and 16-bit factors hold their values exactly for clocks below 528 MHz |
| Delay.FactorsFit | EVT/EXAM/SRC/Debug/debug.c:28-32 | for every clock the registers can give, p_us is at most 18 and p_ms at most 18000 |
| Delay.DelayAccuracy | EVT/EXAM/SRC/Debug/debug.c:43-58 | the ticks of n microseconds are never too many and fewer than n too few; exact only for multiples of 8 MHz, none only below 8 MHz |
| Delay.WrappedDelayIsShort | EVT/EXAM/SRC/Debug/debug.c:48-48 | a product that does not fit loses at least 2^32 ticks |
| Delay.MillisecondsAreMicroseconds | EVT/EXAM/SRC/Debug/debug.c:69-84 | n milliseconds program the ticks of 1000 n microseconds, wrapped or not |
| Delay.PresetDelayIsExact | EVT/EXAM/SRC/Debug/debug.c:43-58 | with any preset clock every delay whose tick count fits is exact |
| Delay.SysTick.DelayInit | EVT/EXAM/SRC/Debug/debug.c:28-32 | in-place form with both truncations |
| Delay.SysTick.DelayUs | EVT/EXAM/SRC/Debug/debug.c:43-58 | CMP gets the microsecond ticks, and the counter is stopped again |
| Delay.SysTick.DelayMs | EVT/EXAM/SRC/Debug/debug.c:69-84 | CMP gets the millisecond ticks, and the counter is stopped again |
| Heap.WrappedSumNeverFits | EVT/EXAM/SRC/Debug/debug.c:257-258 | the two wrapping pointer comparisons decide exactly whether the new break is in the heap |
| Heap.BreakIsSum | EVT/EXAM/SRC/Debug/debug.c:251-262 | the break is _end plus the sum of the successful increments |
| Heap.BlocksTile | EVT/EXAM/SRC/Debug/debug.c:251-262 | after any run what is left of the blocks tiles exactly [_end, break) |
| Heap.TrimTiles | EVT/EXAM/SRC/Debug/debug.c:260-261 | lowering the break keeps a tiling of what lies below it |
| Heap.TilesAreDisjoint | EVT/EXAM/SRC/Debug/debug.c:251-262 | tiling blocks are in order, disjoint and in the heap |
| Heap.BlockStaysWhole | EVT/EXAM/SRC/Debug/debug.c:251-262 | a block stays whole while the break does not move below its end |
| Heap.LiveBlocksAreDisjoint | EVT/EXAM/SRC/Debug/debug.c:251-262 | two blocks never shrunk away do not overlap |
| Heap.GiveBack | EVT/EXAM/SRC/Debug/debug.c:251-262 | giving back the last block restores break and blocks |
| Heap.Sbrk.Call | EVT/EXAM/SRC/Debug/debug.c:251-262 | the old break, or `NULL - 1` with nothing changed exactly when the new break would leave the heap |

## Left out

- The closed wchnet library: only its notifications through `WCHNET_PhyStatus` are recorded, in order.
- Preemption of the main task by the link interrupt in the middle of a negotiation function: each call of the two
  link machines is one atomic step.
- Driver10M.Driver.ReInitMACReg: the wait for the transmitter, the time-out of the software reset, the MAC address,
  MMC mask and DMA interrupt writes (constants), and the descriptor rings it rebuilds are not modelled. The transmit
  ring is modelled from its own initialisation on.
- Driver10M.Driver.ConfigureLinkUp: the wait for the counter reset and its time-out message are not modelled; the
  reset itself is counted.
- Driver10M.Driver.PhyPNProcess: the wait for the counter reset is taken to end.
- The memory order of the core and the bus: stores to descriptors and mailbox words become visible in program order.
- TxRing.TxDriver.Engine: the DMA engine is taken to read TDES0, TDES1 and TDES2 in turn, to send, to write TDES0
  back with OWN clear, to suspend on a descriptor it does not own, and to wake on a poll demand.
- Heap.Sbrk.Call: the linker's symbols are taken to lie in order between 0x20000000 and 0x80000000.
- The receive ring, Ethernet interrupt dispatch, LEDs, GPIO, UART output and all other peripherals.
- The RMII, RGMII and CH32V317 drivers: variants of the MII machine.
- PHY behaviour apart from what is written to MDIX, BCR and the paged MII registers: every reading is arbitrary. A
  PHY reset is taken not to alter MDIX after the write that follows it, the hardware may change BCR at any time but
  not the power-down bit of the MII PHY, and MII registers 0 to 15 exist on every page, so reads of them are not
  recorded.
- Registers are sets of bit positions and MDIX a record of four fields; fields no function looks at are absent.
- SdiMailbox.SdiPort.Write: sizes below 1 are not modelled, because the C code then reads past the buffer it is given.
- SdiMailbox.SdiPort.AwaitFree: the debug host is assumed to make its next access after some number of polls.
- ClockDriver.Clock.AwaitPll: the hardware is assumed to set PLLRDY at some read; the waits for SWS and for the
  SysTick flag carry the same assumption.
- ClockDriver.Clock.BootHsePll: when the code leaves the source it is running on, the moment at which the hardware
  follows SW is not modelled; safety is about the source that SW requests.
- MiiSupervision.PowerDownDwell: assumes that the millisecond clock does not wrap during the dwell, because the C
  code compares `LocalTime` without modular arithmetic.
- Delay: the counting of SysTick itself; only the number of ticks programmed is stated.
