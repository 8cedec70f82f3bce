/** The exact outcome of one call of WCHNET_LinkProcess and of its macros, in terms of register values, bit
    positions and counts. */
module SearchOutcomes {
  import opened Words
  import opened PolaritySearch

  /** MDIX is written with x and negotiation restarted: bit 9 of BCR is set with bit 0 clear, and then bits 0, 1
      and 9 are set. */
  function Switched(s: Search, x: MdixReg): Search {
    s.(mdix := x, bcr := s.bcr + {0, 1, 9},
       writes := s.writes + [Mdix(x), Bcr(s.bcr - {0} + {9}), Bcr(s.bcr + {0, 1, 9})])
  }

  /** The PHY is reset, AUTO selected, and everything about the search and the link forgotten but for
      TRDetectCnt, the period and the random value. */
  function StartedOver(s: Search): Search {
    s.(status := 0, polarity := 0, step := 0, linkCnt := 0, sucCnt := 0, linkStatus := 0, pn := 8,
       mdix := MdixReg(0, 0, 8, 0), bcr := {15}, writes := s.writes + [Bcr({15}), Mdix(MdixReg(0, 0, 8, 0))])
  }

  /** The other crossover: 2 if bit 0 is set, else 1. */
  function Turned(x: MdixReg): MdixReg {
    x.(tr := if x.tr % 2 == 1 then 2 else 1)
  }

  lemma RestartOutcome(s: Search)
    ensures RestartNegotiation(s) ==
      s.(bcr := s.bcr + {0, 1, 9}, writes := s.writes + [Bcr(s.bcr - {0} + {9}), Bcr(s.bcr + {0, 1, 9})])
  {
    assert s.bcr - {0} + {9} + {0, 1, 9} == s.bcr + {0, 1, 9};
    assert s.writes + [Bcr(s.bcr - {0} + {9})] + [Bcr(s.bcr + {0, 1, 9})]
        == s.writes + [Bcr(s.bcr - {0} + {9}), Bcr(s.bcr + {0, 1, 9})];
  }

  lemma TrSwitchOutcome(s: Search)
    ensures TrSwitch(s) == Switched(s, Turned(s.mdix))
  {
    SwitchOutcome(s, Turned(s.mdix), s.pn);
  }

  lemma SwitchOutcome(s: Search, x: MdixReg, pn: nat)
    ensures RestartNegotiation(WriteMdix(s, x).(pn := pn)) == Switched(s, x).(pn := pn)
  {
    RestartOutcome(WriteMdix(s, x).(pn := pn));
    assert s.writes + [Mdix(x)] + [Bcr(s.bcr - {0} + {9}), Bcr(s.bcr + {0, 1, 9})]
        == s.writes + [Mdix(x), Bcr(s.bcr - {0} + {9}), Bcr(s.bcr + {0, 1, 9})];
  }

  /** A polarity switch to P (0) or N (4) keeps crossover and middle bits and drops the high byte; one to AUTO
      (8) writes the bare mode. */
  lemma PnSwitchOutcome(s: Search, mode: nat)
    ensures PnSwitch(s, mode)
         == Switched(s, if mode == 8 then MdixReg(0, 0, 8, 0) else s.mdix.(high := 0, pn := mode)).(pn := mode)
  {
    SwitchOutcome(s, if mode == 8 then MdixReg(0, 0, 8, 0) else s.mdix.(high := 0, pn := mode), mode);
  }

  lemma LinkResetOutcome(s: Search)
    ensures LinkReset(s) == StartedOver(s)
  {
    assert s.writes + [Bcr({15})] + [Mdix(MdixReg(0, 0, 8, 0))]
        == s.writes + [Bcr({15}), Mdix(MdixReg(0, 0, 8, 0))];
  }

  /** The interval: one draw of the generator in step 1, 50 ms otherwise, and no wait at all for a partner that
      has appeared before step 2. */
  lemma PeriodOutcome(s: Search, anlpar: nat)
    ensures UpdatePeriod(s) ==
      if s.step == 1 then
        var drawn := (s.rand * 214017 + 2531017) % 0x1_0000_0000;
        s.(rand := drawn, period := drawn % 100 + 50)
      else s.(period := 50)
    ensures Accelerate(s, anlpar) == if s.step < 2 && anlpar % 32 != 0 then s.(period := 0) else s
  {
  }

  /** A call that sees a partner. */
  lemma SeenOutcome(s: Search, anlpar: nat, bmsr: Bits)
    requires Joint(s) && anlpar % 32 != 0
    ensures
      var t := s.(step := 2, trCnt := if s.step == 1 then 0 else s.trCnt, linkCnt := 0);
      LinkProcess(s, anlpar, bmsr) ==
        if s.step == 0 then
          Switched(s, Turned(s.mdix)).(step := 1, trCnt := 1, period := s.rand % 100 + 50)
        else if s.linkStatus == 0 && s.pn == 8 then
          Switched(t, s.mdix.(high := 0, pn := 0)).(pn := 0)
        else if s.linkStatus == 0 then t.(linkStatus := 128)
        else if s.sucCnt == 5 && 5 !in bmsr then
          var other := if s.pn == 4 then 0 else 4;
          Switched(t, s.mdix.(high := 0, pn := other)).(pn := other, sucCnt := 0)
        else t.(sucCnt := (s.sucCnt + 1) % 256)
  {
    if s.step == 0 {
      TrSwitchOutcome(s.(step := 1, trCnt := 1));
    } else {
      var s1 := if s.step == 1 then s.(step := 2, trCnt := 0) else s;
      PnSwitchOutcome(s1, 0);
      PnSwitchOutcome(s1.(sucCnt := 0), if s.pn == 4 then 0 else 4);
    }
  }

  /** A call in the detection window that sees none. */
  lemma WindowOutcome(s: Search, anlpar: nat, bmsr: Bits)
    requires Joint(s) && anlpar % 32 == 0 && s.step == 1
    ensures
      LinkProcess(s, anlpar, bmsr) ==
        if s.trCnt == 7 then
          s.(trCnt := 0, step := 0, mdix := MdixReg(0, 0, 8, 0), writes := s.writes + [Mdix(MdixReg(0, 0, 8, 0))])
        else Switched(s, Turned(s.mdix)).(trCnt := s.trCnt + 1)
  {
    TrSwitchOutcome(s.(trCnt := Inc8(s.trCnt)));
  }

  /** A call outside the window that sees none: P waits 5 calls and turns to N; N and a wait for negotiation fall
      back to AUTO after 16; AUTO starts over after 101. */
  lemma LostOutcome(s: Search, anlpar: nat, bmsr: Bits)
    requires Joint(s) && anlpar % 32 == 0 && s.step != 1
    ensures
      LinkProcess(s, anlpar, bmsr) ==
        if s.linkStatus == 128 || s.pn == 4 then
          if s.linkCnt == 15 then
            Switched(s, MdixReg(0, 0, 8, 0)).(pn := 8, step := 0, linkStatus := 0, linkCnt := 0, sucCnt := 0)
          else s.(linkCnt := s.linkCnt + 1)
        else if s.pn == 0 then
          if s.linkCnt == 4 then Switched(s, s.mdix.(high := 0, pn := 4)).(pn := 4, linkCnt := 0)
          else s.(linkCnt := s.linkCnt + 1)
        else if s.linkCnt == 100 then StartedOver(s)
        else s.(linkCnt := s.linkCnt + 1)
  {
    PnSwitchOutcome(s.(linkCnt := 0), 4);
    PnSwitchOutcome(s.(linkCnt := 0, sucCnt := 0, step := 0, linkStatus := 0), 8);
    LinkResetOutcome(s.(linkCnt := Inc8(s.linkCnt)));
  }
}
