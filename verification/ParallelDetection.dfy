/** Links to partners that do not negotiate.  The driver cannot see which polarity such a partner needs, so it
    remembers the polarity it chose and turns it when a link proves short-lived. */
module ParallelDetection {
  import opened Words
  import opened PolaritySearch
  import opened Negotiation

  // ---- The interrupts that matter ----

  /** The interrupt finds a link to a partner that does not negotiate. */
  predicate Detects(l: Link, e: Event) {
    e.LinkInterrupt? && LINKED in e.bsr && NEGO_COMPLETE in e.bsr && e.anlpar == 0 && AUTO_NEGO in l.search.bcr
  }

  /** The interrupt finds a negotiating partner: the memory is cleared. */
  predicate Forgets(l: Link, e: Event) {
    e.LinkInterrupt? && LINKED in e.bsr && e.anlpar != 0 && AUTO_NEGO in l.search.bcr
  }

  predicate GoesDown(e: Event) {
    e.LinkInterrupt? && LINKED !in e.bsr
  }

  /** No event of the run is a detection. */
  predicate Undetected(l: Link, events: seq<Event>) {
    events == [] ||
    (Undetected(l, events[..|events| - 1]) && !Detects(Run(l, events[..|events| - 1]), events[|events| - 1]))
  }

  /** Some event of the run finds a negotiating partner. */
  predicate Forgotten(l: Link, events: seq<Event>) {
    events != [] &&
    (Forgotten(l, events[..|events| - 1]) || Forgets(Run(l, events[..|events| - 1]), events[|events| - 1]))
  }

  // ---- The memory, step by step ----

  /** A turned polarity is always remembered together with the kind of link it belongs to. */
  predicate TurnedIsRemembered(l: Link) {
    TURN_PN_POLARITY in l.negoStat ==> LAST_NEGO_STAT in l.negoStat
  }

  lemma StepRemembers(l: Link, e: Event)
    requires TurnedIsRemembered(l)
    ensures TurnedIsRemembered(Step(l, e)) && Step(l, e).chip20 == l.chip20
  {
  }

  lemma {:induction false} Remembered(l: Link, events: seq<Event>)
    requires Start(l)
    ensures TurnedIsRemembered(Run(l, events)) && Run(l, events).chip20 == l.chip20
  {
    if events == [] {
    } else {
      Remembered(l, events[..|events| - 1]);
      StepRemembers(Run(l, events[..|events| - 1]), events[|events| - 1]);
    }
  }

  /** What a detection chooses and remembers. */
  lemma DetectionChooses(l: Link, e: Event)
    requires l.chip20 && Detects(l, e) && TurnedIsRemembered(l)
    ensures
      var r := Step(l, e);
      && r.search.mdix.pn == (if TURN_PN_POLARITY in l.negoStat then PN_N else PN_P)
      && (TURN_PN_POLARITY in r.negoStat <==> TURN_PN_POLARITY in l.negoStat)
      && LAST_NEGO_STAT in r.negoStat && r.negoTime == r.now == l.now && r.chip20
  {
  }

  /** What a link-down interrupt does to the memory of a detected link. */
  lemma LinkDownTurns(l: Link, e: Event)
    requires l.chip20 && GoesDown(e) && LAST_NEGO_STAT in l.negoStat
    ensures
      var r, young := Step(l, e), Since(l.now, l.negoTime) < 100;
      && LAST_NEGO_STAT in r.negoStat
      && ((TURN_PN_POLARITY in r.negoStat <==> TURN_PN_POLARITY in l.negoStat) <==> !young)
      && r.negoTime == if young then 0 else l.negoTime
  {
  }

  /** Every other event that is no detection and finds no negotiating partner leaves the memory alone. */
  lemma OthersKeepMemory(l: Link, e: Event)
    requires !Detects(l, e) && !Forgets(l, e) && !GoesDown(e)
    ensures Step(l, e).negoStat == l.negoStat && Step(l, e).negoTime == l.negoTime
  {
    if e.Handle? { HandleStamps(l, e.seen); }
  }

  lemma StepTells(l: Link, e: Event)
    ensures
      var r := Step(l, e);
      r.chip20 == l.chip20 && r.now == if e.Tick? then (l.now + e.ms) % U32 else l.now
  {
    if e.Handle? { HandleStamps(l, e.seen); }
  }

  lemma {:induction false} RunTells(l: Link, events: seq<Event>)
    requires l.now < U32
    ensures Run(l, events).chip20 == l.chip20 && Run(l, events).now == (l.now + Ms(events)) % U32
  {
    if events == [] {
    } else {
      var init, e := events[..|events| - 1], events[|events| - 1];
      RunTells(l, init);
      StepTells(Run(l, init), e);
      if e.Tick? { TickIsModular(l.now + Ms(init), e.ms); }
    }
  }

  // ---- From one detection to the next ----

  /** Whether a link-down interrupt turns the memory, from what happened since the detection at time t0: the
      first turn needs a link younger than 100 ms; a further one, a clock that reads less than 100. */
  predicate TurnsNow(t0: nat, events: seq<Event>)
    decreases |events|, 1
  {
    if Turns(t0, events) == 0 then Ms(events) % U32 < 100 else (t0 + Ms(events)) % U32 < 100
  }

  /** How often the link-down interrupts after a detection at time t0 turn the memory. */
  function Turns(t0: nat, events: seq<Event>): nat
    decreases |events|, 0
  {
    if events == [] then 0
    else
      var init := events[..|events| - 1];
      Turns(t0, init) + if GoesDown(events[|events| - 1]) && TurnsNow(t0, init) then 1 else 0
  }

  /** The memory after a detected link in state l, in terms of the events alone. */
  predicate MemoryAfter(l: Link, events: seq<Event>, r: Link) {
    var turns := Turns(l.now, events);
    && LAST_NEGO_STAT in r.negoStat
    && ((TURN_PN_POLARITY in r.negoStat <==> TURN_PN_POLARITY in l.negoStat) <==> turns % 2 == 0)
    && r.negoTime == if turns == 0 then l.now else 0
  }

  lemma SinceIsElapsed(now: nat, stamp: nat, ms: nat)
    requires stamp < U32 && now == (stamp + ms) % U32
    ensures Since(now, stamp) == ms % U32
  {
    var k := (stamp + ms) / U32;
    assert now - stamp == ms + U32 * -k;
    AddMultiple(ms, -k);
  }

  /** Just before an event, the age test of the code is the one of `TurnsNow`. */
  lemma YoungIffTurnsNow(l: Link, events: seq<Event>, r: Link)
    requires l.now < U32 && MemoryAfter(l, events, r) && r.now == (l.now + Ms(events)) % U32
    ensures Since(r.now, r.negoTime) < 100 <==> TurnsNow(l.now, events)
  {
    if Turns(l.now, events) == 0 {
      SinceIsElapsed(r.now, l.now, Ms(events));
    } else {
      SinceIsElapsed(r.now, 0, r.now);
    }
  }

  lemma TurnsNext(t0: nat, events: seq<Event>, e: Event)
    ensures Turns(t0, events + [e]) == Turns(t0, events) + if GoesDown(e) && TurnsNow(t0, events) then 1 else 0
  {
    assert (events + [e])[..|events|] == events;
  }

  lemma MemoryNext(l: Link, events: seq<Event>, r: Link, e: Event)
    requires l.now < U32 && MemoryAfter(l, events, r) && r.now == (l.now + Ms(events)) % U32
    requires r.chip20 && !Detects(r, e) && !Forgets(r, e)
    ensures MemoryAfter(l, events + [e], Step(r, e))
  {
    TurnsNext(l.now, events, e);
    if GoesDown(e) {
      YoungIffTurnsNow(l, events, r);
      LinkDownTurns(r, e);
    } else {
      OthersKeepMemory(r, e);
    }
  }

  /** Over any run without a detection and without a negotiating partner, the memory turns exactly as often as
      `Turns` counts. */
  lemma {:induction false} MemoryTurns(l: Link, events: seq<Event>)
    requires l.chip20 && LAST_NEGO_STAT in l.negoStat && l.negoTime == l.now < U32
    requires Undetected(l, events) && !Forgotten(l, events)
    ensures MemoryAfter(l, events, Run(l, events))
  {
    if events == [] {
    } else {
      var init, e := events[..|events| - 1], events[|events| - 1];
      MemoryTurns(l, init);
      RunTells(l, init);
      MemoryNext(l, init, Run(l, init), e);
      assert init + [e] == events;
    }
  }

  /** With nothing in memory, only a detection puts something there. */
  lemma {:induction false} MemoryStaysClear(l: Link, events: seq<Event>)
    requires Undetected(l, events) && (l.negoStat == {} || Forgotten(l, events))
    ensures Run(l, events).negoStat == {}
  {
    if events == [] {
    } else {
      var init, e := events[..|events| - 1], events[|events| - 1];
      var r := Run(l, init);
      if !Forgets(r, e) {
        MemoryStaysClear(l, init);
        if GoesDown(e) { ClearStaysClear(r, e); } else { OthersKeepMemory(r, e); }
      }
    }
  }

  lemma ClearStaysClear(l: Link, e: Event)
    requires GoesDown(e) && l.negoStat == {}
    ensures Step(l, e).negoStat == {}
  {
  }

  /** Main result: for two consecutive detections in any run from the start, whatever interrupts, main-task
      calls and clock wraps lie between them, the second chooses P if a negotiating partner was found in
      between, and otherwise the other polarity exactly when the memory was turned an odd number of times. */
  lemma NextDetection(start: Link, before: seq<Event>, up: Event, mid: seq<Event>, again: Event)
    requires Start(start) && start.chip20
    requires Detects(Run(start, before), up)
    requires
      var s1 := Step(Run(start, before), up);
      Undetected(s1, mid) && Detects(Run(s1, mid), again)
    ensures
      var s1 := Step(Run(start, before), up);
      var first, second := s1.search.mdix.pn, Step(Run(s1, mid), again).search.mdix.pn;
      && (first == PN_P || first == PN_N) && (second == PN_P || second == PN_N)
      && (Forgotten(s1, mid) ==> second == PN_P)
      && (!Forgotten(s1, mid) ==> (second != first <==> Turns(s1.now, mid) % 2 == 1))
  {
    var s0 := Run(start, before);
    Reachable(start, before);
    Remembered(start, before);
    DetectionChooses(s0, up);
    var s1 := Step(s0, up);
    var s2 := Run(s1, mid);
    RunTells(s1, mid);
    if Forgotten(s1, mid) { MemoryStaysClear(s1, mid); } else { MemoryTurns(s1, mid); }
    DetectionChooses(s2, again);
  }

  // ---- The intended case, and the one that defeats it ----

  /** Every link-down interrupt after the first `skip` events comes when the clock reads at least 100. */
  predicate LateDowns(t0: nat, events: seq<Event>, skip: nat) {
    forall i | skip <= i < |events| && GoesDown(events[i]) :: (t0 + Ms(events[..i])) % U32 >= 100
  }

  lemma {:induction false} NoTurnWithoutDown(t0: nat, events: seq<Event>)
    requires forall e | e in events :: !GoesDown(e)
    ensures Turns(t0, events) == 0
  {
    if events == [] {
    } else {
      NoTurnWithoutDown(t0, events[..|events| - 1]);
    }
  }

  lemma NextPrefix(t0: nat, events: seq<Event>, n: nat)
    requires n < |events|
    ensures Ms(events[..n]) <= Ms(events[..n + 1])
    ensures Turns(t0, events[..n + 1])
         == Turns(t0, events[..n]) + if GoesDown(events[n]) && TurnsNow(t0, events[..n]) then 1 else 0
  {
    assert events[..n + 1][..n] == events[..n];
  }

  /** The link lasts from the detection to its first link-down interrupt, event d.  Within one clock period,
      and if no later link-down finds the clock below 100, the first n events turn the memory once when the
      link lasted less than 100 ms and not at all otherwise. */
  lemma {:induction false} ShortLinkTurnsOnce(t0: nat, events: seq<Event>, d: nat, n: nat)
    requires d < n <= |events| && GoesDown(events[d]) && forall i | 0 <= i < d :: !GoesDown(events[i])
    requires Ms(events[..n]) < U32 && LateDowns(t0, events, d + 1)
    ensures Turns(t0, events[..n]) == if Ms(events[..d]) < 100 then 1 else 0
    ensures Ms(events[..d]) <= Ms(events[..n])
    decreases n
  {
    NextPrefix(t0, events, n - 1);
    if d == n - 1 {
      NoTurnWithoutDown(t0, events[..d]);
    } else {
      ShortLinkTurnsOnce(t0, events, d, n - 1);
    }
  }

  lemma ShortLinkIsOddTurns(t0: nat, events: seq<Event>, d: nat)
    requires d < |events| && GoesDown(events[d]) && forall i | 0 <= i < d :: !GoesDown(events[i])
    requires Ms(events) < U32 && LateDowns(t0, events, d + 1)
    ensures Turns(t0, events) % 2 == 1 <==> Ms(events[..d]) < 100
  {
    assert events[..|events|] == events;
    ShortLinkTurnsOnce(t0, events, d, |events|);
  }

  /** Under the conditions of `ShortLinkTurnsOnce`, and with no negotiating partner in between, the next
      detected link uses the other polarity if and only if this one was shorter than 100 ms. */
  lemma ShortLinkTurnsPolarity(start: Link, before: seq<Event>, up: Event, mid: seq<Event>, d: nat, again: Event)
    requires Start(start) && start.chip20
    requires Detects(Run(start, before), up)
    requires
      var s1 := Step(Run(start, before), up);
      Undetected(s1, mid) && !Forgotten(s1, mid) && Detects(Run(s1, mid), again)
      && Ms(mid) < U32 && LateDowns(s1.now, mid, d + 1)
    requires d < |mid| && GoesDown(mid[d]) && forall i | 0 <= i < d :: !GoesDown(mid[i])
    ensures
      var s1 := Step(Run(start, before), up);
      Step(Run(s1, mid), again).search.mdix.pn != s1.search.mdix.pn <==> Ms(mid[..d]) < 100
  {
    NextDetection(start, before, up, mid, again);
    ShortLinkIsOddTurns(Step(Run(start, before), up).now, mid, d);
  }

  /** The failing input: within the first 100 ms of the clock a second link-down interrupt turns the memory
      back, and a link that lasted 5 ms is followed by one with the same polarity. */
  lemma SecondDownTurnsBack(start: Link, up: Event, down: Event)
    requires Start(start) && start.chip20 && start.now == 0 && AUTO_NEGO in start.search.bcr
    requires up == LinkInterrupt({LINKED, NEGO_COMPLETE}, 0, {}) && down == LinkInterrupt({}, 0, {})
    ensures
      var s1 := Step(start, up);
      var s2 := Step(Step(Step(s1, Tick(5)), down), down);
      && Detects(start, up) && Detects(s2, up)
      && s1.search.mdix.pn == PN_P && Step(s2, up).search.mdix.pn == PN_P
      && Step(Step(Step(s1, Tick(5)), down), up).search.mdix.pn == PN_N
  {
    var s1 := Step(start, up);
    DetectionChooses(start, up);
    var s2 := Step(s1, Tick(5));
    LinkDownTurns(s2, down);
    var s3 := Step(s2, down);
    DetectionChooses(s3, up);
    LinkDownTurns(s3, down);
    DetectionChooses(Step(s3, down), up);
  }
}
