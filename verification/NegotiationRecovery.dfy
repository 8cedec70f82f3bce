/** The recovery bound of the polarity search, seen from the main task. */
module NegotiationRecovery {
  import opened Words
  import opened PolaritySearch
  import opened SearchRuns
  import opened Negotiation

  /** No link interrupt, no MAC re-initialisation, and no partner in any reading. */
  predicate Quiet(e: Event) {
    e.Tick? || e.Hardware?
    || (e.Handle? && !PartnerVisible(e.seen.anlparEarly) && !PartnerVisible(e.seen.anlpar))
  }

  /** How many of the events run the search. */
  function SearchRunCount(l: Link, events: seq<Event>): nat {
    if events == [] then 0
    else
      var init := events[..|events| - 1];
      SearchRunCount(l, init) + if Searches(Run(l, init), events[|events| - 1]) then 1 else 0
  }

  lemma {:induction false} QuietRun(l: Link, events: seq<Event>)
    requires Valid(l) && l.linkReset == 0 && l.search.status == 0
    requires forall e | e in events :: Quiet(e)
    ensures
      var r, k := Run(l, events), SearchRunCount(l, events);
      && Valid(r) && r.linkReset == 0 && r.search.status == 0
      && (k < CallsToReset(l.search) ==>
            CallsToReset(r.search) == CallsToReset(l.search) - k && Resets(r.search.writes) == Resets(l.search.writes))
      && (k >= CallsToReset(l.search) ==> Resets(r.search.writes) > Resets(l.search.writes))
  {
    if events == [] {
    } else {
      var init, e := events[..|events| - 1], events[|events| - 1];
      QuietRun(l, init);
      QuietStep(Run(l, init), e);
    }
  }

  lemma QuietStep(l: Link, e: Event)
    requires Valid(l) && l.linkReset == 0 && l.search.status == 0 && Quiet(e)
    ensures
      var r := Step(l, e);
      && Valid(r) && r.linkReset == 0 && r.search.status == 0
      && (!Searches(l, e) ==>
            CallsToReset(r.search) == CallsToReset(l.search) && r.search.writes == l.search.writes)
      && (Searches(l, e) && CallsToReset(l.search) > 1 ==>
            CallsToReset(r.search) == CallsToReset(l.search) - 1 && Resets(r.search.writes) == Resets(l.search.writes))
      && (Searches(l, e) && CallsToReset(l.search) == 1 ==>
            Resets(r.search.writes) == Resets(l.search.writes) + 1)
      && Resets(r.search.writes) >= Resets(l.search.writes)
  {
    StepKeepsValid(l, e);
    CallsToResetBounds(l.search);
    if Searches(l, e) {
      var s := UpdatePeriod(Accelerate(l.search, e.seen.anlparEarly));
      if CallsToReset(s) > 1 {
        MissCountsDown(s, e.seen.anlpar, e.seen.bmsr);
      } else {
        LastMissResets(s, e.seen.anlpar, e.seen.bmsr);
        LinkResetResetsOnce(s);
      }
    }
  }

  /** Main result: an unlinked driver that sees no partner resets the PHY within 122 runs of the search, at
      exactly the CallsToReset-th of them, however the runs are spread over the main task. */
  lemma MainTaskRecovers(start: Link, before: seq<Event>, events: seq<Event>)
    requires Start(start)
    requires var l := Run(start, before); l.linkReset == 0 && l.search.status == 0
    requires forall e | e in events :: Quiet(e)
    ensures
      var l := Run(start, before);
      var r, k := Run(l, events), SearchRunCount(l, events);
      && CallsToReset(l.search) <= 122
      && (Resets(r.search.writes) > Resets(l.search.writes) <==> k >= CallsToReset(l.search))
  {
    var l := Run(start, before);
    Reachable(start, before);
    CallsToResetBounds(l.search);
    QuietRun(l, events);
  }

  // ---- In real time ----

  /** At least the longest period, and then the main task gets its turn. */
  predicate Stretch(events: seq<Event>) {
    && events != [] && events[|events| - 1].Handle?
    && (forall e | e in events :: Quiet(e))
    && 149 <= Ms(events) < U32 - 150
  }

  predicate Recent(l: Link) {
    Since(l.now, l.linkTime) < 150
  }

  lemma LaterBy(now: nat, later: nat, stamp: nat, ms: nat)
    requires later == (now + ms) % U32 && Since(now, stamp) + ms < U32
    ensures Since(later, stamp) == Since(now, stamp) + ms
  {
    var d, k := now - stamp, (now + ms) / U32;
    assert d == U32 * (d / U32) + d % U32;
    assert later - stamp == d % U32 + ms + U32 * (d / U32 - k);
    AddMultiple(d % U32 + ms, d / U32 - k);
  }

  /** Every call of the main task leaves phyLinkTime less than 150 ms back. */
  lemma HandleIsRecent(l: Link, e: Event)
    requires Valid(l) && l.linkReset == 0 && l.search.status == 0 && Quiet(e) && e.Handle?
    ensures Recent(Step(l, e))
  {
  }

  /** As long as the search does not run, the time since the last run grows with real time. */
  lemma {:induction false} WaitingRun(l: Link, events: seq<Event>)
    requires Valid(l) && l.linkReset == 0 && l.search.status == 0
    requires (forall e | e in events :: Quiet(e)) && SearchRunCount(l, events) == 0
    requires Since(l.now, l.linkTime) + Ms(events) < U32
    ensures
      var r := Run(l, events);
      Since(r.now, r.linkTime) == Since(l.now, l.linkTime) + Ms(events)
  {
    if events == [] {
    } else {
      var init, e := events[..|events| - 1], events[|events| - 1];
      WaitingRun(l, init);
      QuietRun(l, init);
      WaitingStep(Run(l, init), e);
    }
  }

  lemma WaitingStep(l: Link, e: Event)
    requires Valid(l) && l.linkReset == 0 && l.search.status == 0 && Quiet(e) && !Searches(l, e)
    requires Since(l.now, l.linkTime) + (if e.Tick? then e.ms else 0) < U32
    ensures
      var r := Step(l, e);
      Since(r.now, r.linkTime) == Since(l.now, l.linkTime) + if e.Tick? then e.ms else 0
  {
    if e.Tick? { LaterBy(l.now, (l.now + e.ms) % U32, l.linkTime, e.ms); }
  }

  lemma OverdueSearches(l: Link, e: Event)
    requires Valid(l) && l.linkReset == 0 && l.search.status == 0 && Quiet(e) && e.Handle?
    requires Since(l.now, l.linkTime) >= 149
    ensures Searches(l, e)
  {
  }

  /** In every stretch the search runs at least once. */
  lemma StretchSearches(l: Link, events: seq<Event>)
    requires Valid(l) && l.linkReset == 0 && l.search.status == 0 && Recent(l) && Stretch(events)
    ensures SearchRunCount(l, events) >= 1 && Recent(Run(l, events))
  {
    var init, e := events[..|events| - 1], events[|events| - 1];
    var r := Run(l, init);
    QuietRun(l, init);
    assert Recent(Run(l, events)) by { HandleIsRecent(r, e); }
    if SearchRunCount(l, init) == 0 {
      WaitingRun(l, init);
      assert Searches(r, e) by { OverdueSearches(r, e); }
    }
  }

  function RunStretches(l: Link, stretches: seq<seq<Event>>): Link {
    if stretches == [] then l
    else Run(RunStretches(l, stretches[..|stretches| - 1]), stretches[|stretches| - 1])
  }

  lemma {:induction false} StretchesCountDown(l: Link, stretches: seq<seq<Event>>)
    requires Valid(l) && l.linkReset == 0 && l.search.status == 0 && Recent(l)
    requires forall s | s in stretches :: Stretch(s)
    ensures
      var r := RunStretches(l, stretches);
      && Valid(r) && r.linkReset == 0 && r.search.status == 0 && Recent(r)
      && Resets(r.search.writes) >= Resets(l.search.writes)
      && (Resets(r.search.writes) == Resets(l.search.writes) ==>
            CallsToReset(r.search) <= CallsToReset(l.search) - |stretches|)
  {
    if stretches == [] {
    } else {
      var init, last := stretches[..|stretches| - 1], stretches[|stretches| - 1];
      StretchesCountDown(l, init);
      StretchSearches(RunStretches(l, init), last);
      QuietRun(RunStretches(l, init), last);
    }
  }

  /** Main result in real time: from every reachable unlinked state, once the main task has been called, a
      driver that sees no partner resets the PHY within CallsToReset stretches, so within 122 times 149 ms plus
      the time the main task takes to come round, however long the clock has been running. */
  lemma ResetInTime(start: Link, before: seq<Event>, first: Event, stretches: seq<seq<Event>>)
    requires Start(start)
    requires var l := Run(start, before); l.linkReset == 0 && l.search.status == 0
    requires Quiet(first) && first.Handle? && forall s | s in stretches :: Stretch(s)
    ensures
      var l := Step(Run(start, before), first);
      && CallsToReset(l.search) <= 122
      && (|stretches| >= CallsToReset(l.search) ==>
            Resets(RunStretches(l, stretches).search.writes) > Resets(l.search.writes))
  {
    var l0 := Run(start, before);
    var l := Step(l0, first);
    Reachable(start, before);
    QuietStep(l0, first);
    HandleIsRecent(l0, first);
    CallsToResetBounds(l.search);
    StretchesCountDown(l, stretches);
    CallsToResetBounds(RunStretches(l, stretches).search);
  }
}
