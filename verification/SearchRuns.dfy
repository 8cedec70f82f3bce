/** What the polarity search does over many calls of WCHNET_LinkProcess. */
module SearchRuns {
  import opened Words
  import opened PolaritySearch
  import opened RandomInterval
  import opened SearchOutcomes

  /** The two registers one call reads. */
  datatype Poll = Poll(anlpar: nat, bmsr: Bits)

  /** The state after one call for every element of `polls`. */
  function Calls(s: Search, polls: seq<Poll>): Search {
    if polls == [] then s
    else
      var last := polls[|polls| - 1];
      LinkProcess(Calls(s, polls[..|polls| - 1]), last.anlpar, last.bmsr)
  }

  lemma {:induction false} CallsKeepJoint(s: Search, polls: seq<Poll>)
    requires Joint(s)
    ensures Joint(Calls(s, polls))
  {
    if polls == [] {
    } else {
      var init, last := polls[..|polls| - 1], polls[|polls| - 1];
      CallsKeepJoint(s, init);
      LinkProcessKeepsJoint(Calls(s, init), last.anlpar, last.bmsr);
    }
  }

  // ---- Recovery of a search that has lost its partner ----

  /** How many PHY resets have been written. */
  function Resets(writes: seq<PhyWrite>): nat {
    if writes == [] then 0
    else Resets(writes[..|writes| - 1]) + if writes[|writes| - 1] == Bcr(PHY_RESET) then 1 else 0
  }

  lemma ResetsAppend(writes: seq<PhyWrite>, w: PhyWrite)
    ensures Resets(writes + [w]) == Resets(writes) + if w == Bcr(PHY_RESET) then 1 else 0
  {
    assert (writes + [w])[..|writes|] == writes;
  }

  lemma RestartIsNoReset(s: Search)
    ensures Resets(RestartNegotiation(s).writes) == Resets(s.writes)
  {
    var s1 := WriteBcr(s, s.bcr - {0} + {RESTART_NEGO});
    ResetsAppend(s.writes, Bcr(s1.bcr));
    ResetsAppend(s1.writes, Bcr(s1.bcr + {0, 1, RESTART_NEGO}));
    assert RESTART_NEGO in s1.bcr && 0 in s1.bcr + {0, 1, RESTART_NEGO};
  }

  lemma SwitchIsNoReset(s: Search, value: MdixReg, pn: nat)
    ensures Resets(RestartNegotiation(WriteMdix(s, value).(pn := pn)).writes) == Resets(s.writes)
  {
    ResetsAppend(s.writes, Mdix(value));
    RestartIsNoReset(WriteMdix(s, value).(pn := pn));
  }

  lemma LinkResetResetsOnce(s: Search)
    ensures Resets(LinkReset(s).writes) == Resets(s.writes) + 1
  {
    ResetsAppend(s.writes, Bcr(PHY_RESET));
    ResetsAppend(s.writes + [Bcr(PHY_RESET)], Mdix(Bare(PN_AUTO)));
  }

  /** The number of calls without a visible partner until the next link reset. */
  function CallsToReset(s: Search): int {
    var auto := 101;
    if s.step == 1 then (8 - s.trCnt) + (auto - s.linkCnt)
    else if s.linkStatus == WAIT_SUC || s.pn == PN_N then (16 - s.linkCnt) + auto
    else if s.pn == PN_P then (5 - s.linkCnt) + 16 + auto
    else auto - s.linkCnt
  }

  lemma MissCountsDown(s: Search, anlpar: nat, bmsr: Bits)
    requires Joint(s) && !PartnerVisible(anlpar) && CallsToReset(s) > 1
    ensures
      var s' := LinkProcess(s, anlpar, bmsr);
      CallsToReset(s') == CallsToReset(s) - 1 && Resets(s'.writes) == Resets(s.writes)
  {
    if s.step == 1 {
      SwitchIsNoReset(s.(trCnt := Inc8(s.trCnt)), Crossed(s.mdix), s.pn);
      ResetsAppend(s.writes, Mdix(Bare(PN_AUTO)));
    } else if s.linkStatus != WAIT_SUC && s.pn == PN_P {
      SwitchIsNoReset(s.(linkCnt := 0), Polarized(s.mdix, PN_N), PN_N);
    } else {
      SwitchIsNoReset(s.(linkCnt := 0, sucCnt := 0, step := 0, linkStatus := LINK_INIT), Bare(PN_AUTO), PN_AUTO);
    }
  }

  lemma LastMissResets(s: Search, anlpar: nat, bmsr: Bits)
    requires Joint(s) && !PartnerVisible(anlpar) && CallsToReset(s) == 1
    ensures LinkProcess(s, anlpar, bmsr) == LinkReset(s)
  {
  }

  lemma CallsToResetBounds(s: Search)
    requires Joint(s)
    ensures 1 <= CallsToReset(s) <= 122
    ensures CallsToReset(s) == 122 <==> s.linkStatus == LINK_INIT && s.pn == PN_P && s.linkCnt == 0
  {
  }

  /** Main result on recovery: once no partner is visible, the next link reset comes after exactly
      CallsToReset calls, at most 122 of them, whatever BMSR reads and from every reachable state. */
  lemma {:induction false} BoundedRecovery(s: Search, polls: seq<Poll>)
    requires Joint(s) && forall r | r in polls :: !PartnerVisible(r.anlpar)
    requires |polls| <= CallsToReset(s)
    ensures CallsToReset(s) <= 122
    ensures
      var r := Calls(s, polls);
      if |polls| < CallsToReset(s) then
        CallsToReset(r) == CallsToReset(s) - |polls| && Resets(r.writes) == Resets(s.writes)
      else
        Resets(r.writes) == Resets(s.writes) + 1 && r.step == 0 && r.pn == PN_AUTO && r.linkCnt == 0
        && r.mdix == Bare(PN_AUTO) && r.bcr == PHY_RESET
  {
    CallsToResetBounds(s);
    if polls == [] {
    } else {
      var init, last := polls[..|polls| - 1], polls[|polls| - 1];
      BoundedRecovery(s, init);
      CallsKeepJoint(s, init);
      var r := Calls(s, init);
      if |polls| < CallsToReset(s) {
        MissCountsDown(r, last.anlpar, last.bmsr);
      } else {
        LastMissResets(r, last.anlpar, last.bmsr);
        LinkResetResetsOnce(r);
      }
    }
  }

  // ---- Fairness of a search that keeps seeing a partner ----

  /** The search as a link reset leaves it. */
  predicate Fresh(s: Search) {
    && s.step == 0 && s.pn == PN_AUTO && s.mdix.pn == PN_AUTO
    && s.linkStatus == LINK_INIT && s.sucCnt == 0 && s.linkCnt <= 100
  }

  /** The crossover the first call chooses. */
  function Chosen(s: Search): nat {
    if s.mdix.tr % 2 == 1 then 2 else 1
  }

  /** Where the search started in `s` stands after n calls that all see a partner and no completed
      negotiation: crossover window, P, then a wait whose count and polarity run through the twelve
      values (P, 0), ..., (P, 5), (N, 0), ..., (N, 5) in turn.  The crossover found and the middle bits of MDIX
      stay, and negotiation has been restarted. */
  predicate Pattern(s: Search, n: nat, r: Search) {
    if n == 0 then r == s
    else if n == 1 then
      r.step == 1 && r.trCnt == 1 && r.pn == 8 && r.linkStatus == 0 && r.sucCnt == 0
      && r.mdix == s.mdix.(tr := Chosen(s)) && {0, 1, 9} <= r.bcr
    else
      && r.step == 2 && r.trCnt == 0 && r.linkCnt == 0 && (r.pn == 0 || r.pn == 4)
      && r.mdix == MdixReg(0, s.mdix.mid, r.pn, Chosen(s)) && {0, 1, 9} <= r.bcr
      && (if n == 2 then r.linkStatus == 0 && r.pn == 0 && r.sucCnt == 0
          else r.linkStatus == 128 && r.sucCnt <= 5
               && r.sucCnt + (if r.pn == 0 then 0 else 6) == (n - 3) % 12)
  }

  lemma PatternStep(s: Search, n: nat, r: Search, poll: Poll)
    requires Fresh(s) && Pattern(s, n, r) && Joint(r)
    requires poll.anlpar % 32 != 0 && 5 !in poll.bmsr
    ensures Pattern(s, n + 1, LinkProcess(r, poll.anlpar, poll.bmsr))
  {
    SeenOutcome(r, poll.anlpar, poll.bmsr);
    if n >= 3 { TwelveAdvances(n - 3); }
  }

  lemma TwelveAdvances(n: nat)
    ensures (n + 1) % 12 == if n % 12 == 11 then 0 else n % 12 + 1
  {
  }

  /** Main result on fairness: with a partner in view and negotiation never completing, the third call
      starts the wait in P; from then on every sixth call flips the polarity, so that P and N alternate. */
  lemma {:induction false} PolaritiesAlternate(s: Search, polls: seq<Poll>)
    requires Fresh(s) && Joint(s)
    requires forall r | r in polls :: r.anlpar % 32 != 0 && 5 !in r.bmsr
    ensures Pattern(s, |polls|, Calls(s, polls))
  {
    if polls == [] {
    } else {
      var init := polls[..|polls| - 1];
      PolaritiesAlternate(s, init);
      CallsKeepJoint(s, init);
      PatternStep(s, |init|, Calls(s, init), polls[|polls| - 1]);
    }
  }

  lemma WaitStep(s: Search, poll: Poll)
    requires Joint(s) && s.linkStatus == 128 && s.sucCnt <= 5
    requires poll.anlpar % 32 != 0 && 5 !in poll.bmsr
    ensures
      var s' := LinkProcess(s, poll.anlpar, poll.bmsr);
      && s'.step == 2 && s'.linkStatus == 128 && s'.trCnt == s.trCnt && s'.linkCnt == 0
      && s'.sucCnt == (if s.sucCnt == 5 then 0 else s.sucCnt + 1)
      && s'.pn == (if s.sucCnt < 5 then s.pn else if s.pn == 0 then 4 else 0)
      && s'.mdix == if s.sucCnt < 5 then s.mdix else s.mdix.(high := 0, pn := s'.pn)
  {
    SeenOutcome(s, poll.anlpar, poll.bmsr);
  }

  // ---- The detection window ----

  /** MDIX after k crossover switches. */
  function CrossedTimes(mdix: MdixReg, k: nat): MdixReg {
    if k == 0 then mdix else Crossed(CrossedTimes(mdix, k - 1))
  }

  /** The crossover after k switches from one whose bit 0 is set or clear. */
  function TrAfter(tr: nat, k: nat): nat {
    if (tr % 2 == 1) == (k % 2 == 1) then 2 else 1
  }

  /** Successive switches alternate between the two crossovers, starting with 2 from one whose bit 0 is set and
      with 1 otherwise, and leave the rest of MDIX alone. */
  lemma {:induction false} CrossoversAlternate(mdix: MdixReg, k: nat)
    requires k >= 1
    ensures CrossedTimes(mdix, k) == mdix.(tr := TrAfter(mdix.tr, k))
    ensures TrAfter(mdix.tr, k + 1) == 3 - TrAfter(mdix.tr, k)
  {
    if k == 1 {
      assert CrossedTimes(mdix, 1) == Crossed(CrossedTimes(mdix, 0));
    } else {
      CrossoversAlternate(mdix, k - 1);
    }
  }

  function MdixWrites(writes: seq<PhyWrite>): seq<MdixReg> {
    if writes == [] then []
    else
      var w := writes[|writes| - 1];
      MdixWrites(writes[..|writes| - 1]) + if w.Mdix? then [w.value] else []
  }

  lemma MdixAppend(writes: seq<PhyWrite>, w: PhyWrite)
    ensures MdixWrites(writes + [w]) == MdixWrites(writes) + if w.Mdix? then [w.value] else []
  {
    assert (writes + [w])[..|writes|] == writes;
  }

  lemma TrSwitchWritesOnce(s: Search)
    ensures MdixWrites(TrSwitch(s).writes) == MdixWrites(s.writes) + [Crossed(s.mdix)]
  {
    var s1 := WriteMdix(s, Crossed(s.mdix));
    var s2 := WriteBcr(s1, s1.bcr - {0} + {RESTART_NEGO});
    MdixAppend(s.writes, Mdix(s1.mdix));
    MdixAppend(s1.writes, Bcr(s2.bcr));
    MdixAppend(s2.writes, Bcr(s2.bcr + {0, 1, RESTART_NEGO}));
  }

  /** The values CrossedTimes(mdix, 1), ..., CrossedTimes(mdix, k). */
  function Switches(mdix: MdixReg, k: nat): seq<MdixReg> {
    if k == 0 then [] else Switches(mdix, k - 1) + [CrossedTimes(mdix, k)]
  }

  /** The window is open and its k-th switch has been made. */
  predicate InWindow(r: Search, k: nat, mdix: MdixReg, before: seq<MdixReg>) {
    && r.step == 1 && r.trCnt == k && r.mdix == CrossedTimes(mdix, k)
    && MdixWrites(r.writes) == before + Switches(mdix, k)
  }

  lemma MissSwitchesAgain(r: Search, k: nat, mdix: MdixReg, before: seq<MdixReg>, miss: Poll)
    requires InWindow(r, k, mdix, before) && k < 7 && !PartnerVisible(miss.anlpar)
    ensures InWindow(LinkProcess(r, miss.anlpar, miss.bmsr), k + 1, mdix, before)
  {
    MissIsSwitch(r, k, miss);
    TrSwitchWritesOnce(r.(trCnt := k + 1));
  }

  lemma MissIsSwitch(r: Search, k: nat, miss: Poll)
    requires r.step == 1 && r.trCnt == k < 7 && !PartnerVisible(miss.anlpar)
    ensures LinkProcess(r, miss.anlpar, miss.bmsr) == TrSwitch(r.(trCnt := k + 1))
  {
  }

  lemma SeventhMissCloses(r: Search, k: nat, mdix: MdixReg, before: seq<MdixReg>, miss: Poll)
    requires InWindow(r, k, mdix, before) && k == 7 && !PartnerVisible(miss.anlpar)
    ensures
      var r' := LinkProcess(r, miss.anlpar, miss.bmsr);
      && r'.step == 0 && r'.trCnt == 0 && r'.mdix == Bare(PN_AUTO)
      && MdixWrites(r'.writes) == before + Switches(mdix, k) + [Bare(PN_AUTO)]
  {
    MdixAppend(r.writes, Mdix(Bare(PN_AUTO)));
  }

  /** Main result on the window: a partner that shows once and is then gone costs exactly seven crossover
      switches, one a call; the eighth call selects AUTO and closes the window. */
  lemma {:induction false} WindowOfSevenSwitches(s: Search, first: Poll, misses: seq<Poll>, seven: nat)
    requires s.step == 0 && PartnerVisible(first.anlpar)
    requires seven == 7 && |misses| <= seven && forall r | r in misses :: !PartnerVisible(r.anlpar)
    ensures
      var r, before := Calls(LinkProcess(s, first.anlpar, first.bmsr), misses), MdixWrites(s.writes);
      if |misses| < seven then InWindow(r, |misses| + 1, s.mdix, before)
      else
        && r.step == 0 && r.trCnt == 0 && r.mdix == Bare(PN_AUTO)
        && MdixWrites(r.writes) == before + Switches(s.mdix, seven) + [Bare(PN_AUTO)]
  {
    var before := MdixWrites(s.writes);
    if misses == [] {
      TrSwitchWritesOnce(s.(step := 1, trCnt := 1));
      assert CrossedTimes(s.mdix, 1) == Crossed(CrossedTimes(s.mdix, 0));
      assert Switches(s.mdix, 1) == Switches(s.mdix, 0) + [CrossedTimes(s.mdix, 1)];
    } else {
      var init, last := misses[..|misses| - 1], misses[|misses| - 1];
      WindowOfSevenSwitches(s, first, init, seven);
      var r := Calls(LinkProcess(s, first.anlpar, first.bmsr), init);
      if |misses| < seven {
        MissSwitchesAgain(r, |misses|, s.mdix, before, last);
      } else {
        SeventhMissCloses(r, seven, s.mdix, before, last);
      }
    }
  }

  // ---- A missed flip ----

  /** The flip test looks at the count once: when negotiation is complete at that call the count runs past
      5 and wraps.  Exactly: while no flip happens the count advances by one a call modulo 256, and the
      call flips exactly when the count is 5 and negotiation is not complete. */
  lemma {:induction false} FlipTest(s: Search, polls: seq<Poll>, last: Poll)
    requires Joint(s) && s.linkStatus == WAIT_SUC
    requires forall r | r in polls :: PartnerVisible(r.anlpar)
    requires PartnerVisible(last.anlpar)
    requires forall i | 0 <= i < |polls| :: (s.sucCnt + i) % 256 == 5 ==> NEGO_COMPLETE in polls[i].bmsr
    ensures
      var r := Calls(s, polls);
      var r' := LinkProcess(r, last.anlpar, last.bmsr);
      && r.pn == s.pn && r.linkStatus == WAIT_SUC && r.step == 2
      && r.sucCnt == (s.sucCnt + |polls|) % 256
      && (r'.pn != r.pn <==> (s.sucCnt + |polls|) % 256 == 5 && NEGO_COMPLETE !in last.bmsr)
  {
    if polls == [] {
    } else {
      var init := polls[..|polls| - 1];
      FlipTest(s, init, polls[|polls| - 1]);
      CountWraps(s.sucCnt + |init|);
    }
  }

  lemma CountWraps(n: nat)
    ensures Inc8(n % 256) == (n + 1) % 256
  {
  }

  lemma FiveAgain(i: nat)
    requires i < 256 && (5 + i) % 256 == 5
    ensures i == 0
  {
  }

  /** A consequence: if negotiation happens to be complete at the sixth call of a wait, the polarity stays
      put for the 255 calls after it, whatever they read. */
  lemma MissedFlip(s: Search, sixth: Poll, later: seq<Poll>)
    requires Joint(s) && s.linkStatus == WAIT_SUC && s.sucCnt == 5
    requires PartnerVisible(sixth.anlpar) && NEGO_COMPLETE in sixth.bmsr
    requires |later| <= 255 && forall r | r in later :: PartnerVisible(r.anlpar)
    ensures Calls(s, [sixth] + later).pn == s.pn
  {
    var polls := [sixth] + later;
    forall i | 0 <= i < |polls| && (s.sucCnt + i) % 256 == 5 ensures NEGO_COMPLETE in polls[i].bmsr {
      FiveAgain(i);
    }
    FlipTest(s, polls, sixth);
  }

  lemma LinkResetIsFresh(s: Search)
    requires s.trCnt < 256
    ensures Fresh(LinkReset(s)) && Joint(LinkReset(s))
  {
  }

  lemma EightCalls(s: Search, eight: seq<Poll>)
    requires Fresh(s) && Joint(s) && |eight| == 8
    requires forall r | r in eight :: PartnerVisible(r.anlpar) && NEGO_COMPLETE !in r.bmsr
    ensures
      var r := Calls(s, eight);
      Joint(r) && r.step == 2 && r.linkStatus == WAIT_SUC && r.sucCnt == 5 && r.pn == PN_P && r.mdix.pn == r.pn
  {
    PolaritiesAlternate(s, eight);
    CallsKeepJoint(s, eight);
  }

  /** The failing input: eight calls after a link reset the search waits in P with its count at 5.  A ninth
      call that finds negotiation incomplete flips to N; one that finds it complete leaves the search in P for
      255 calls more, though every one of them finds negotiation incomplete. */
  lemma MissedFlipReached(s: Search, eight: seq<Poll>, ninth: Poll, later: seq<Poll>)
    requires Fresh(s) && Joint(s) && |eight| == 8 && |later| <= 255
    requires forall r | r in eight :: PartnerVisible(r.anlpar) && NEGO_COMPLETE !in r.bmsr
    requires forall r | r in later :: PartnerVisible(r.anlpar) && NEGO_COMPLETE !in r.bmsr
    requires PartnerVisible(ninth.anlpar)
    ensures
      var r := Calls(s, eight);
      && r.pn == PN_P
      && (NEGO_COMPLETE !in ninth.bmsr ==> LinkProcess(r, ninth.anlpar, ninth.bmsr).pn == PN_N)
      && (NEGO_COMPLETE in ninth.bmsr ==> Calls(r, [ninth] + later).pn == PN_P)
  {
    EightCalls(s, eight);
    var r := Calls(s, eight);
    if NEGO_COMPLETE in ninth.bmsr { MissedFlip(r, ninth, later); } else { WaitStep(r, ninth); }
  }

  // ---- The drawn intervals ----

  /** The calls of the main task whose time has come: the period is set, then the search runs. */
  function DueCalls(s: Search, polls: seq<Poll>): Search {
    if polls == [] then s
    else
      var last := polls[|polls| - 1];
      LinkProcess(UpdatePeriod(DueCalls(s, polls[..|polls| - 1])), last.anlpar, last.bmsr)
  }

  lemma DueCallKeepsJoint(s: Search, p: Poll)
    requires Joint(s)
    ensures Joint(LinkProcess(UpdatePeriod(s), p.anlpar, p.bmsr))
  {
    LinkProcessKeepsJoint(UpdatePeriod(s), p.anlpar, p.bmsr);
  }

  /** What a due call does to the random value and the period. */
  lemma DueCallDraws(s: Search, p: Poll)
    requires Joint(s)
    ensures
      var r := LinkProcess(UpdatePeriod(s), p.anlpar, p.bmsr);
      var drawn := (s.rand * 214017 + 2531017) % 0x1_0000_0000;
      if s.step == 1 then r.rand == drawn && r.period == drawn % 100 + 50
      else r.rand == s.rand
           && r.period == if s.step == 0 && p.anlpar % 32 != 0 then s.rand % 100 + 50 else 50
  {
    var u := UpdatePeriod(s);
    PeriodOutcome(s, p.anlpar);
    if p.anlpar % 32 != 0 {
      SeenOutcome(u, p.anlpar, p.bmsr);
    } else if s.step == 1 {
      WindowOutcome(u, p.anlpar, p.bmsr);
    } else {
      LostOutcome(u, p.anlpar, p.bmsr);
    }
  }

  /** How many of the due calls find the detection window open. */
  function Draws(s: Search, polls: seq<Poll>): nat {
    if polls == [] then 0
    else
      var init := polls[..|polls| - 1];
      Draws(s, init) + if DueCalls(s, init).step == 1 then 1 else 0
  }

  /** The search after n draws from a seed. */
  predicate Drawn(r: Search, n: nat, seed: nat) {
    Joint(r) && r.rand == Iterate(n, seed) && (r.step == 1 ==> r.period == r.rand % 100 + 50)
  }

  /** Main result on the intervals: over any run of due calls RandVal is the generator's value after one draw for
      every call in a window, and inside a window the period is that value modulo 100 plus 50. */
  lemma {:induction false} IntervalsAreDrawn(s: Search, polls: seq<Poll>)
    requires Joint(s) && (s.step == 1 ==> s.period == s.rand % 100 + 50)
    ensures Drawn(DueCalls(s, polls), Draws(s, polls), s.rand)
  {
    if polls == [] {
    } else {
      var init := polls[..|polls| - 1];
      IntervalsAreDrawn(s, init);
      IntervalDrawn(DueCalls(s, init), Draws(s, init), s.rand, polls[|polls| - 1]);
    }
  }

  lemma IntervalDrawn(r: Search, n: nat, seed: nat, p: Poll)
    requires Drawn(r, n, seed)
    ensures Drawn(LinkProcess(UpdatePeriod(r), p.anlpar, p.bmsr), if r.step == 1 then n + 1 else n, seed)
  {
    DueCallKeepsJoint(r, p);
    DueCallDraws(r, p);
    NextIterate(n, seed);
    StepOneFromWindow(r, p);
  }

  lemma NextIterate(n: nat, x: nat)
    ensures Iterate(n + 1, x) == (Iterate(n, x) * 214017 + 2531017) % 0x1_0000_0000
  {
  }

  /** The window is open after a call only if it was open before or the call opened it. */
  lemma StepOneFromWindow(s: Search, p: Poll)
    requires Joint(s)
    ensures LinkProcess(UpdatePeriod(s), p.anlpar, p.bmsr).step == 1 ==>
      s.step == 1 || (s.step == 0 && p.anlpar % 32 != 0)
  {
    var u := UpdatePeriod(s);
    PeriodOutcome(s, p.anlpar);
    if p.anlpar % 32 != 0 {
      SeenOutcome(u, p.anlpar, p.bmsr);
    } else if s.step != 1 {
      LostOutcome(u, p.anlpar, p.bmsr);
    }
  }

  lemma DrawsValue(cycle: nat, seed: nat, value: nat)
    requires cycle == U32 && seed < U32 && value < cycle
    ensures DrawnWithin(cycle, seed, value)
  {
    FullCycle(cycle, seed);
  }

  /** Every interval from 50 to 149 ms is drawn in a cycle, whatever the seed. */
  lemma EveryIntervalDrawn(cycle: nat, seed: nat, interval: nat)
    requires cycle == U32 && seed < U32 && 50 <= interval <= 149
    ensures exists i: nat | i < cycle :: Iterate(i, seed) % 100 + 50 == interval
  {
    DrawsValue(cycle, seed, interval - 50);
    var i: nat :| i < cycle && Iterate(i, seed) == interval - 50;
    assert Iterate(i, seed) % 100 + 50 == interval;
  }
}
