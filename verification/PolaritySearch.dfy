/** The search that WCHNET_LinkProcess makes for a working crossover (TR) and polarity (PN) of the internal
    10M PHY, together with the PHY registers MDIX and BCR it works on. */
module PolaritySearch {
  import opened Words
  import opened RandomInterval

  // PHY_PN_SWITCH_x: bits 3:2 of MDIX
  const PN_P := 0
  const PN_N := 4
  const PN_AUTO := 8

  // phyLinkStatus
  const LINK_INIT := 0
  const WAIT_SUC := 0x80

  const TASK_PERIOD := 50

  // Bits of BMSR and BCR, IEEE Std 802.3 sections 22.2.4.1 and 22.2.4.2
  const NEGO_COMPLETE: nat := 5
  const LINKED: nat := 2
  const PHY_RESET: Bits := {15}
  const RESTART_NEGO: nat := 9

  /** MDIX by its bits 15:8, 7:4, 3:2 (in place, so one of 0, 4, 8, 12) and 1:0. */
  datatype MdixReg = MdixReg(high: nat, mid: nat, pn: nat, tr: nat)

  /** What has been written to the PHY, in order. */
  datatype PhyWrite = Mdix(value: MdixReg) | Bcr(bits: Bits)

  datatype Search = Search(
    linkStatus: nat, linkCnt: nat, sucCnt: nat, pn: nat, step: nat, trCnt: nat,
    period: nat, rand: nat,
    status: nat, polarity: nat,   // phyStatus, PhyPolarityDetect: cleared by a link reset
    mdix: MdixReg, bcr: Bits, writes: seq<PhyWrite>)

  // ---- MDIX ----

  /** The other crossover. */
  function Crossed(mdix: MdixReg): MdixReg {
    mdix.(tr := if mdix.tr % 2 == 1 then 2 else 1)
  }

  /** Another polarity.  The value passes through the uint8_t phyPN, which drops the high byte. */
  function Polarized(mdix: MdixReg, mode: nat): MdixReg {
    mdix.(high := 0, pn := mode)
  }

  /** The bare mode as a register value. */
  function Bare(mode: nat): MdixReg {
    MdixReg(0, 0, mode, 0)
  }

  // ---- The macros ----

  function WriteMdix(s: Search, value: MdixReg): Search {
    s.(mdix := value, writes := s.writes + [Mdix(value)])
  }

  function WriteBcr(s: Search, bits: Bits): Search {
    s.(bcr := bits, writes := s.writes + [Bcr(bits)])
  }

  function RestartNegotiation(s: Search): Search {
    var s1 := WriteBcr(s, s.bcr - {0} + {RESTART_NEGO});
    WriteBcr(s1, s1.bcr + {0, 1, RESTART_NEGO})
  }

  function TrSwitch(s: Search): Search {
    RestartNegotiation(WriteMdix(s, Crossed(s.mdix)))
  }

  function PnSwitch(s: Search, mode: nat): Search {
    var value := if mode == PN_AUTO then Bare(PN_AUTO) else Polarized(s.mdix, mode);
    RestartNegotiation(WriteMdix(s, value).(pn := mode))
  }

  function ParamInit(s: Search): Search {
    WriteMdix(s.(status := 0, sucCnt := 0, linkCnt := 0, step := 0, polarity := 0, linkStatus := LINK_INIT,
                 pn := PN_AUTO), Bare(PN_AUTO))
  }

  function LinkReset(s: Search): Search {
    ParamInit(WriteBcr(s, PHY_RESET))
  }

  /** The interval drawn from RandVal. */
  function DrawnPeriod(rand: nat): nat {
    rand % 100 + 50
  }

  function UpdatePeriod(s: Search): Search {
    if s.step == 1 then s.(rand := Next(s.rand), period := DrawnPeriod(Next(s.rand)))
    else s.(period := 50)
  }

  function Accelerate(s: Search, anlpar: nat): Search {
    if s.step < 2 && PartnerVisible(anlpar) then s.(period := 0) else s
  }

  /** The selector field of ANLPAR is not zero. */
  predicate PartnerVisible(anlpar: nat) {
    anlpar % 32 != 0
  }

  predicate Waiting(linkStatus: nat) {
    linkStatus / 128 % 2 == 1
  }

  // ---- WCHNET_LinkProcess, by what the call does ----

  /** A partner appears: the first crossover switch opens the detection window. */
  function OpenWindow(s: Search): Search {
    var s1 := TrSwitch(s.(step := 1, trCnt := 1));
    s1.(period := DrawnPeriod(s1.rand))
  }

  /** Another interval of the window without a partner: switch again, or close it after the seventh switch. */
  function MissedInWindow(s: Search): Search {
    var c := Inc8(s.trCnt);
    if c == 8 then WriteMdix(s.(trCnt := 0, step := 0), Bare(PN_AUTO)) else TrSwitch(s.(trCnt := c))
  }

  /** Polarity settles in P, then waits for negotiation to complete, flipping when the count is up. */
  function Settle(s: Search, bmsr: Bits): Search {
    if !Waiting(s.linkStatus) then
      if s.pn == PN_AUTO then PnSwitch(s, PN_P) else s.(linkStatus := WAIT_SUC)
    else if s.sucCnt == 5 && NEGO_COMPLETE !in bmsr then
      PnSwitch(s.(sucCnt := 0), if s.pn == PN_N then PN_P else PN_N)
    else s.(sucCnt := Inc8(s.sucCnt))
  }

  /** The calls a lost partner is given in each phase before the search falls back. */
  function Patience(linkStatus: nat, pn: nat): nat {
    if linkStatus == WAIT_SUC then 16
    else if pn == PN_P then 5
    else if pn == PN_N then 16
    else 5000 / TASK_PERIOD + 1
  }

  function Lost(s: Search): Search {
    if s.linkCnt + 1 != Patience(s.linkStatus, s.pn) then s.(linkCnt := Inc8(s.linkCnt))
    else if s.linkStatus != WAIT_SUC && s.pn == PN_P then PnSwitch(s.(linkCnt := 0), PN_N)
    else if s.linkStatus == WAIT_SUC || s.pn == PN_N then
      PnSwitch(s.(linkCnt := 0, sucCnt := 0, step := 0, linkStatus := LINK_INIT), PN_AUTO)
    else LinkReset(s.(linkCnt := Inc8(s.linkCnt)))
  }

  function LinkProcess(s: Search, anlpar: nat, bmsr: Bits): Search {
    if PartnerVisible(anlpar) then
      if s.step == 0 then OpenWindow(s)
      else
        var s1 := if s.step == 1 then s.(step := 2, trCnt := 0) else s;
        Settle(s1, bmsr).(linkCnt := 0)
    else if s.step == 1 then MissedInWindow(s)
    else Lost(s)
  }

  // ---- The joint invariant ----

  /** The bound on phyLinkCnt in each phase. */
  function CountBound(s: Search): nat {
    if s.pn == PN_AUTO then 100 else if s.linkStatus == LINK_INIT && s.pn == PN_P then 4 else 15
  }

  predicate Joint(s: Search) {
    && (s.pn == PN_P || s.pn == PN_N || s.pn == PN_AUTO)
    && (s.linkStatus == LINK_INIT || s.linkStatus == WAIT_SUC)
    && s.step <= 2
    && (s.step == 2 <==> s.pn != PN_AUTO)
    && (s.linkStatus == WAIT_SUC ==> s.pn != PN_AUTO)
    && (s.linkStatus == LINK_INIT ==> s.sucCnt == 0)
    && (s.step == 1 ==> 1 <= s.trCnt <= 7)
    && s.linkCnt <= CountBound(s)
    && s.sucCnt < 256 && s.trCnt < 256
    && (s.status == 0 ==> s.mdix.pn == s.pn)
  }

  /** Every call keeps the joint invariant; in particular no `phyLinkCnt++ == k` test is ever overshot, and
      MDIX keeps showing the polarity held in phyPN. */
  lemma LinkProcessKeepsJoint(s: Search, anlpar: nat, bmsr: Bits)
    requires Joint(s)
    ensures Joint(LinkProcess(s, anlpar, bmsr))
  {
    if !PartnerVisible(anlpar) && s.step != 1 { LostKeepsJoint(s); }
  }

  lemma LostKeepsJoint(s: Search)
    requires Joint(s) && s.step != 1
    ensures Joint(Lost(s))
  {
  }

  lemma LinkResetIsJoint(s: Search)
    requires s.trCnt < 256
    ensures Joint(LinkReset(s))
  {
  }
}
