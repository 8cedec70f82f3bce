/** What the outcomes of single events mean for whole runs of the 10M link. */
module LinkRuns {
  import opened Words
  import opened PolaritySearch
  import opened SearchOutcomes
  import opened SearchRuns
  import opened Negotiation
  import opened LinkOutcomes

  // ---- Every PHY reset starts the search over ----

  lemma ResetsOf(s: Search, x: MdixReg)
    ensures Resets(Switched(s, x).writes) == Resets(s.writes)
    ensures Resets(s.writes + [Mdix(x)]) == Resets(s.writes)
  {
    var w1 := s.writes + [Mdix(x)];
    var w2 := w1 + [Bcr(s.bcr - {0} + {9})];
    ResetsAppend(s.writes, Mdix(x));
    ResetsAppend(w1, Bcr(s.bcr - {0} + {9}));
    ResetsAppend(w2, Bcr(s.bcr + {0, 1, 9}));
    assert 9 in s.bcr - {0} + {9} && 9 in s.bcr + {0, 1, 9} && 9 !in {15};
    assert Switched(s, x).writes == w2 + [Bcr(s.bcr + {0, 1, 9})];
  }

  /** A call of the search writes a PHY reset exactly when it starts over. */
  lemma CallResets(s: Search, anlpar: nat, bmsr: Bits)
    requires Joint(s)
    ensures
      var r := LinkProcess(s, anlpar, bmsr);
      Resets(r.writes) == Resets(s.writes) || (r == StartedOver(s) && SearchIsFresh(r))
  {
    ResetsOf(s, Turned(s.mdix));
    ResetsOf(s, MdixReg(0, 0, 8, 0));
    ResetsOf(s, s.mdix.(high := 0, pn := 0));
    ResetsOf(s, s.mdix.(high := 0, pn := 4));
    if anlpar % 32 != 0 {
      SeenOutcome(s, anlpar, bmsr);
    } else if s.step == 1 {
      WindowOutcome(s, anlpar, bmsr);
    } else {
      LostOutcome(s, anlpar, bmsr);
    }
  }

  lemma HandleResets(l: Link, seen: HandleReads)
    requires Valid(l) && l.search.mdix.pn in {0, 4, 8, 12}
    ensures
      var s, r := l.search, HandlePhyNegotiation(l, seen).search;
      Resets(r.writes) == Resets(s.writes) || SearchIsFresh(r)
  {
    if l.linkReset != 0 {
      DwellOutcome(l, seen);
    } else if l.search.status == 0 {
      SeekOutcome(l, seen);
      CallResets(UpdatePeriod(l.search), seen.anlpar, seen.bmsr);
    } else {
      LinkedResets(l, seen);
    }
  }

  lemma LinkedResets(l: Link, seen: HandleReads)
    requires l.linkReset == 0 && l.search.status != 0 && l.search.mdix.pn in {0, 4, 8, 12}
    ensures
      var s, r := l.search, HandlePhyNegotiation(l, seen).search;
      Resets(r.writes) == Resets(s.writes) || SearchIsFresh(r)
  {
    LinkedOutcome(l, seen);
    ReinitCheckOutcome(l, seen);
    var l1 := CheckAfterReinit(l, seen);
    PolarityCheckOutcome(l1, seen);
    ResetsOf(l.search, l.search.mdix.(pn := OtherPn(l.search.mdix.pn)));
  }

  lemma InterruptResets(l: Link, e: Event)
    requires e.LinkInterrupt?
    ensures Resets(Step(l, e).search.writes) == Resets(l.search.writes) || SearchIsFresh(Step(l, e).search)
  {
    if 2 !in e.bsr {
      DownOutcome(l, e.bsr, e.anlpar, e.status);
    } else if 12 in l.search.bcr && e.anlpar != 0 {
      NegotiatedOutcome(l, e.bsr, e.anlpar, e.status);
    } else {
      SilentOutcome(l, e.bsr, e.anlpar, e.status);
      ResetsOf(l.search, MdixReg(0, 0, 0, 0));
      ResetsOf(l.search, MdixReg(0, 0, 4, 0));
    }
  }

  lemma ReceiveResets(l: Link, overflow: bool)
    ensures
      var r := Step(l, Receive(overflow)).search;
      Resets(r.writes) == Resets(l.search.writes) || SearchIsFresh(r)
  {
    var t := Turned(l.search.mdix);
    ReceiveOutcome(l, overflow);
    ResetsOf(l.search, t);
    ResetsAppend(l.search.writes + [Mdix(t)], Mdix(Turned(t)));
    assert l.search.writes + [Mdix(t)] + [Mdix(Turned(t))] == l.search.writes + [Mdix(t), Mdix(Turned(t))];
  }

  // ---- MDIX and the MAC over a run ----

  /** Whether the event brings a link up, and in which duplex. */
  predicate BringsUp(l: Link, e: Event) {
    e.LinkInterrupt? && 2 in e.bsr && (12 !in l.search.bcr || 5 in e.bsr)
  }

  predicate FullDuplex(l: Link, e: Event)
    requires e.LinkInterrupt?
  {
    12 in l.search.bcr && e.anlpar != 0 && (2 in e.status || e.anlpar % 32 != 1)
  }

  /** The duplex of the link-ups of a run, oldest first. */
  function Duplexes(l: Link, events: seq<Event>): seq<bool> {
    if events == [] then []
    else
      var init, e := events[..|events| - 1], events[|events| - 1];
      NextDuplexes(Run(l, init), Duplexes(l, init), e)
  }

  function NextDuplexes(r: Link, ups: seq<bool>, e: Event): seq<bool> {
    if BringsUp(r, e) then ups + [FullDuplex(r, e)] else ups
  }

  /** There is a link only after a link-up, and from then on the MAC is at 10M, in the duplex of the last
      link-up, and running.  Bits 3:2 of MDIX stay a field. */
  predicate MacAgrees(l: Link, ups: seq<bool>) {
    && l.search.mdix.pn in {0, 4, 8, 12}
    && (l.search.status != 0 ==> ups != [])
    && (ups != [] ==>
          && 14 !in l.maccr && 15 !in l.maccr && 2 in l.maccr && 3 in l.maccr && 1 in l.dmaomr && 13 in l.dmaomr
          && (11 in l.maccr <==> ups[|ups| - 1]))
  }

  lemma InterruptKeepsMac(l: Link, ups: seq<bool>, e: Event)
    requires MacAgrees(l, ups) && e.LinkInterrupt?
    ensures MacAgrees(Step(l, e), NextDuplexes(l, ups, e))
  {
    if 2 !in e.bsr {
      DownOutcome(l, e.bsr, e.anlpar, e.status);
    } else if 12 in l.search.bcr && e.anlpar != 0 {
      NegotiatedOutcome(l, e.bsr, e.anlpar, e.status);
    } else {
      SilentOutcome(l, e.bsr, e.anlpar, e.status);
    }
  }

  lemma CallKeepsMdix(s: Search, anlpar: nat, bmsr: Bits)
    requires Joint(s) && s.mdix.pn in {0, 4, 8, 12}
    ensures LinkProcess(s, anlpar, bmsr).mdix.pn in {0, 4, 8, 12}
    ensures LinkProcess(s, anlpar, bmsr).status == 0 || LinkProcess(s, anlpar, bmsr).status == s.status
  {
    if anlpar % 32 != 0 {
      SeenOutcome(s, anlpar, bmsr);
    } else if s.step == 1 {
      WindowOutcome(s, anlpar, bmsr);
    } else {
      LostOutcome(s, anlpar, bmsr);
    }
  }

  lemma HandleKeepsMac(l: Link, ups: seq<bool>, seen: HandleReads)
    requires MacAgrees(l, ups) && Valid(l)
    ensures MacAgrees(HandlePhyNegotiation(l, seen), ups)
  {
    if l.linkReset != 0 {
      DwellOutcome(l, seen);
    } else if l.search.status == 0 {
      SeekOutcome(l, seen);
      CallKeepsMdix(UpdatePeriod(l.search), seen.anlpar, seen.bmsr);
    } else {
      LinkedKeepsMac(l, ups, seen);
    }
  }

  lemma LinkedKeepsMac(l: Link, ups: seq<bool>, seen: HandleReads)
    requires MacAgrees(l, ups) && l.linkReset == 0 && l.search.status != 0
    ensures MacAgrees(HandlePhyNegotiation(l, seen), ups)
  {
    LinkedOutcome(l, seen);
    ReinitCheckOutcome(l, seen);
    PolarityCheckOutcome(CheckAfterReinit(l, seen), seen);
  }

  lemma StepKeepsMac(l: Link, ups: seq<bool>, e: Event)
    requires MacAgrees(l, ups) && Valid(l)
    ensures MacAgrees(Step(l, e), NextDuplexes(l, ups, e))
  {
    match e
    case Handle(seen) => HandleKeepsMac(l, ups, seen);
    case LinkInterrupt(_, _, _) => InterruptKeepsMac(l, ups, e);
    case Receive(overflow) => ReceiveOutcome(l, overflow);
    case _ =>
  }

  /** Main result on the MAC: in every reachable state with a link the MAC runs at 10M, in the duplex that the
      last link-up found, through polarity checks and re-initialisations. */
  lemma {:induction false} MacFollowsLink(l: Link, events: seq<Event>)
    requires Start(l)
    ensures MacAgrees(Run(l, events), Duplexes(l, events))
  {
    if events == [] {
    } else {
      var init := events[..|events| - 1];
      MacFollowsLink(l, init);
      Reachable(l, init);
      StepKeepsMac(Run(l, init), Duplexes(l, init), events[|events| - 1]);
    }
  }

  /** Main result on resets: in every reachable state, whichever event writes a PHY reset leaves no link, no
      polarity check and a search at its beginning. */
  lemma EveryResetStartsOver(l: Link, events: seq<Event>, e: Event)
    requires Start(l)
    ensures
      var r := Run(l, events);
      Resets(Step(r, e).search.writes) != Resets(r.search.writes) ==> SearchIsFresh(Step(r, e).search)
  {
    var r := Run(l, events);
    Reachable(l, events);
    MacFollowsLink(l, events);
    match e
    case Handle(seen) => HandleResets(r, seen);
    case LinkInterrupt(_, _, _) => InterruptResets(r, e);
    case Receive(overflow) => ReceiveResets(r, overflow);
    case _ =>
  }

  // ---- From a lost link to the next search ----

  /** Main result on recovery: from every reachable state, 500 ms or more after a link-down the main task switches
      the PHY on with the search at its beginning, and its next call runs the search: a partner in view opens the
      detection window, and none in view is counted. */
  lemma SearchResumes(start: Link, before: seq<Event>, down: Event, ms: nat, first: HandleReads, second: HandleReads)
    requires Start(start) && down.LinkInterrupt? && 2 !in down.bsr && 500 <= ms < 0x1_0000_0000
    ensures
      var on := Step(Step(Step(Run(start, before), down), Tick(ms)), Handle(first));
      var next := Step(on, Handle(second));
      && 2 in on.exten && on.linkReset == 0 && SearchIsFresh(on.search)
      && next.linkTime == next.now && next.search.status == 0
      && (if second.anlpar % 32 != 0 then next.search.step == 1 && next.search.mdix == MdixReg(0, 0, 8, 1)
          else next.search.step == 0 && next.search.linkCnt == 1)
  {
    var l := Run(start, before);
    Reachable(start, before);
    DownThenOn(l, down, ms, first);
    var on := Step(Step(Step(l, down), Tick(ms)), Handle(first));
    SeekOutcome(on, second);
    FirstCall(UpdatePeriod(on.search), second);
  }

  lemma DownThenOn(l: Link, down: Event, ms: nat, first: HandleReads)
    requires Valid(l) && down.LinkInterrupt? && 2 !in down.bsr && 500 <= ms < 0x1_0000_0000
    ensures
      var on := Step(Step(Step(l, down), Tick(ms)), Handle(first));
      && Valid(on) && 2 in on.exten && on.linkReset == 0 && SearchIsFresh(on.search)
      && Elapsed(on.now, on.linkTime) == ms
  {
    DownOutcome(l, down.bsr, down.anlpar, down.status);
    PhyLinkKeepsValid(l, down.bsr, down.anlpar, down.status);
    var off := Step(l, down);
    TickOutcome(off, ms);
    StepKeepsValid(off, Tick(ms));
    ElapsedIs(off.now, ms);
    var late := Step(off, Tick(ms));
    DwellOutcome(late, first);
    HandleKeepsValid(late, first);
  }

  lemma ElapsedIs(stamp: nat, ms: nat)
    requires stamp < 0x1_0000_0000 && ms < 0x1_0000_0000
    ensures Elapsed((stamp + ms) % 0x1_0000_0000, stamp) == ms
  {
  }

  lemma FirstCall(s: Search, seen: HandleReads)
    requires Joint(s) && s.step == 0 && s.linkCnt == 0 && s.linkStatus == 0 && s.pn == 8 && s.status == 0
    requires s.mdix == MdixReg(0, 0, 8, 0)
    ensures
      var r := LinkProcess(s, seen.anlpar, seen.bmsr);
      && r.status == 0
      && (if seen.anlpar % 32 != 0 then r.step == 1 && r.mdix == MdixReg(0, 0, 8, 1)
          else r.step == 0 && r.linkCnt == 1)
  {
    if seen.anlpar % 32 != 0 {
      SeenOutcome(s, seen.anlpar, seen.bmsr);
    } else {
      LostOutcome(s, seen.anlpar, seen.bmsr);
    }
  }

  // ---- Polarity checks of a link that brings only broken frames ----

  /** 100 ms or more pass, and the main task finds three or more broken frames and no good one. */
  datatype Round = Round(ms: nat, seen: HandleReads)

  predicate Broken(round: Round) {
    && 100 <= round.ms < 0x1_0000_0000
    && round.seen.unicastBefore == 0 && round.seen.crcErrors >= 3 && round.seen.unicastAfter == 0
  }

  function AfterRound(l: Link, round: Round): Link {
    Step(Step(l, Tick(round.ms)), Handle(round.seen))
  }

  function AfterRounds(l: Link, rounds: seq<Round>): Link {
    if rounds == [] then l else AfterRound(AfterRounds(l, rounds[..|rounds| - 1]), rounds[|rounds| - 1])
  }

  /** A link in its polarity check that was looked at just now. */
  predicate Checking(l: Link, pn: nat) {
    && l.linkReset == 0 && l.search.status != 0 && l.search.polarity == 1 && l.reinit == 0
    && l.now < 0x1_0000_0000 && l.succTime == l.now && l.search.mdix.pn == pn
  }

  lemma BrokenRound(l: Link, pn: nat, round: Round)
    requires Checking(l, pn) && (pn == 0 || pn == 4) && Broken(round)
    ensures
      var r := AfterRound(l, round);
      Checking(r, 4 - pn) && r.search.mdix == l.search.mdix.(pn := 4 - pn) && r.macffr == l.macffr
      && r.counterResets == l.counterResets + 1
  {
    TickOutcome(l, round.ms);
    var late := Step(l, Tick(round.ms));
    ElapsedIs(l.now, round.ms);
    ReinitCheckOutcome(late, round.seen);
    LinkedOutcome(late, round.seen);
    PolarityCheckOutcome(late, round.seen);
  }

  /** The polarity after n turns between 0 and 4. */
  function TurnedTimes(pn: nat, n: nat): nat {
    if n % 2 == 1 && pn <= 4 then 4 - pn else pn
  }

  lemma TurnedOnceMore(pn: nat, n: nat)
    requires pn == 0 || pn == 4
    ensures TurnedTimes(pn, n) == 0 || TurnedTimes(pn, n) == 4
    ensures TurnedTimes(pn, n + 1) == 4 - TurnedTimes(pn, n)
  {
  }

  /** The link after n broken rounds. */
  predicate AfterBroken(l: Link, pn: nat, n: nat, r: Link) {
    && Checking(r, TurnedTimes(pn, n))
    && r.search.mdix == l.search.mdix.(pn := TurnedTimes(pn, n))
    && r.macffr == l.macffr && r.counterResets == l.counterResets + n
  }

  lemma OneMoreBroken(l: Link, pn: nat, n: nat, r: Link, round: Round)
    requires (pn == 0 || pn == 4) && AfterBroken(l, pn, n, r) && Broken(round)
    ensures AfterBroken(l, pn, n + 1, AfterRound(r, round))
  {
    TurnedOnceMore(pn, n);
    BrokenRound(r, TurnedTimes(pn, n), round);
  }

  /** Main result on the polarity check: as long as only broken frames arrive, every check turns the polarity, so
      that the two alternate, with the rest of MDIX and the filter as they were. */
  lemma {:induction false} BrokenChecksAlternate(l: Link, pn: nat, rounds: seq<Round>)
    requires Checking(l, pn) && (pn == 0 || pn == 4) && forall r | r in rounds :: Broken(r)
    ensures AfterBroken(l, pn, |rounds|, AfterRounds(l, rounds))
  {
    if rounds == [] {
    } else {
      var init := rounds[..|rounds| - 1];
      BrokenChecksAlternate(l, pn, init);
      OneMoreBroken(l, pn, |init|, AfterRounds(l, init), rounds[|rounds| - 1]);
    }
  }

  /** The first good frame ends the checking in the polarity reached, with the filter on. */
  lemma GoodFrameEnds(l: Link, pn: nat, round: Round)
    requires Checking(l, pn) && (pn == 0 || pn == 4) && 100 <= round.ms < 0x1_0000_0000
    requires round.seen.unicastBefore != 0 && round.seen.unicastAfter != 0
    ensures
      var r := AfterRound(l, round);
      && r.search.polarity == 0 && r.search.mdix == l.search.mdix && r.search.status == l.search.status
      && 0 !in r.macffr && 31 !in r.macffr && r.counterResets == l.counterResets
  {
    TickOutcome(l, round.ms);
    var late := Step(l, Tick(round.ms));
    ElapsedIs(l.now, round.ms);
    ReinitCheckOutcome(late, round.seen);
    LinkedOutcome(late, round.seen);
    PolarityCheckOutcome(late, round.seen);
  }
}
