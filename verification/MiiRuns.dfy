/** What the MII supervision does over whole runs: when a link comes up and when it ends. */
module MiiRuns {
  import opened Words
  import opened MiiSupervision

  // ---- One status query ----

  /** The query is due and finds a word to act on: both the word it reads first and the one ETH_PHYLink settles
      on count, and an old chip ignores the word last acted on. */
  predicate TakesStatusWord(m: Mii, seen: QueryReads) {
    && m.lastQuery != m.now / 1000
    && seen.bsr != m.lastStat && seen.bsr != {0, 1, 2, 3, 4, 5, 6, 7, 8, 9, 10, 11, 12, 13, 14, 15}
    && !(m.oldChip && StatusWord(m, seen) == m.lastStat)
  }

  predicate LinksUp(m: Mii, seen: QueryReads) {
    && TakesStatusWord(m, seen)
    && 2 in StatusWord(m, seen)
    && (12 !in m.bcr || seen.anlpar == 0 || 5 in StatusWord(m, seen))
  }

  predicate LinksDown(m: Mii, seen: QueryReads) {
    TakesStatusWord(m, seen) && 2 !in StatusWord(m, seen)
  }

  /** MACCR as a link-up with this BCR sets it: bit 14 for 100M, bit 11 for full duplex, transmitter and
      receiver on. */
  predicate MacFollows(maccr: Bits, bcr: Bits) {
    && (14 in maccr <==> 13 in bcr) && 15 !in maccr
    && (11 in maccr <==> 8 in bcr)
    && 2 in maccr && 3 in maccr
  }

  /** What a link-up does besides: the aids stop, the link timer is back at its default, and the status of the
      MAC apart from mode and enables is as it was. */
  lemma LinkUpOutcome(m: Mii, seen: QueryReads)
    requires LinksUp(m, seen)
    ensures
      var r := QueryPhySta(m, seen);
      && MacFollows(r.maccr, m.bcr)
      && r.maccr - {2, 3, 11, 14, 15} == m.maccr - {2, 3, 11, 14, 15}
      && r.accStep == 0 && r.procStep == 0 && r.linkTimer == {} && r.page == {}
      && r.accesses == m.accesses + [Write(m.page, 31, {}), Write({}, 19, {})]
  {
  }

  /** A query that does not link up leaves MAC, aids and PHY registers alone. */
  lemma NoLinkUpOutcome(m: Mii, seen: QueryReads)
    requires !LinksUp(m, seen)
    ensures
      var r := QueryPhySta(m, seen);
      && r.maccr == m.maccr && r.accStep == m.accStep && r.accTime == m.accTime && r.procStep == m.procStep
      && r.linkTimer == m.linkTimer && r.power == m.power && r.page == m.page && r.accesses == m.accesses
  {
  }

  /** The exact outcome of a query in any state. */
  lemma QueryOutcome(m: Mii, seen: QueryReads)
    ensures
      var r := QueryPhySta(m, seen);
      && r.linkSta == (if LinksUp(m, seen) then 1 else if LinksDown(m, seen) then 0 else m.linkSta)
      && r.valid == (if LinksDown(m, seen) then 0 else m.valid)
      && r.procTime == (if LinksUp(m, seen) || LinksDown(m, seen) then 0 else m.procTime)
      && r.lastStat == (if TakesStatusWord(m, seen) then StatusWord(m, seen) else m.lastStat)
      && r.notes == (if TakesStatusWord(m, seen) then m.notes + [StatusWord(m, seen)] else m.notes)
      && r.bcr == m.bcr && r.now == m.now && r.taskTime == m.taskTime && r.lastQuery == m.now / 1000
  {
  }

  // ---- Coming up ----

  /** Some query of the run is one that links up. */
  predicate ComesUp(m: Mii, events: seq<Event>) {
    events != [] &&
    var init, e := events[..|events| - 1], events[|events| - 1];
    ComesUp(m, init) || (e.Query? && LinksUp(Run(m, init), e.seen))
  }

  lemma DownStep(m: Mii, e: Event)
    requires m.linkSta == 0
    ensures Step(m, e).linkSta == 0 <==> !(e.Query? && LinksUp(m, e.seen))
  {
    if e.Query? { QueryOutcome(m, e.seen); }
  }

  /** Main result on coming up: a link that is down stays down throughout a run if and only if no query in it
      links up; nothing else ever notices a PHY that has a link. */
  lemma {:induction false} StaysDownIff(m: Mii, events: seq<Event>)
    requires m.linkSta == 0
    ensures NoLinkUp(m, events) <==> !ComesUp(m, events)
  {
    if events == [] {
    } else {
      var init := events[..|events| - 1];
      StaysDownIff(m, init);
      if NoLinkUp(m, init) {
        NoLinkUpNow(m, init);
        DownStep(Run(m, init), events[|events| - 1]);
      }
    }
  }

  lemma NoLinkUpNow(m: Mii, events: seq<Event>)
    requires NoLinkUp(m, events)
    ensures Run(m, events).linkSta == 0
  {
  }

  // ---- The mode of the MAC ----

  /** The values of BCR at the link-ups of a run, oldest first. */
  function LinkUps(m: Mii, events: seq<Event>): seq<Bits> {
    if events == [] then []
    else
      var init, e := events[..|events| - 1], events[|events| - 1];
      LinkUps(m, init) + if e.Query? && LinksUp(Run(m, init), e.seen) then [Run(m, init).bcr] else []
  }

  /** The link has come up, if it is up, and MACCR is as the last link-up left it. */
  predicate ModeOf(r: Mii, ups: seq<Bits>) {
    && (r.linkSta == 1 ==> ups != [])
    && (ups != [] ==> MacFollows(r.maccr, ups[|ups| - 1]))
  }

  lemma ModeStep(r: Mii, ups: seq<Bits>, e: Event)
    requires ModeOf(r, ups) && r.linkSta <= 1
    ensures ModeOf(Step(r, e), ups + if e.Query? && LinksUp(r, e.seen) then [r.bcr] else [])
  {
    assert ups + [] == ups;
    match e
    case Query(seen) =>
      QueryOutcome(r, seen);
      if LinksUp(r, seen) { LinkUpOutcome(r, seen); } else { NoLinkUpOutcome(r, seen); }
    case _ =>
  }

  /** Main result on the mode: in every reachable state of an up link the MAC runs at the speed and duplex that
      BCR showed at the last link-up. */
  lemma {:induction false} MacFollowsLastLinkUp(m: Mii, events: seq<Event>)
    requires Start(m)
    ensures ModeOf(Run(m, events), LinkUps(m, events))
  {
    if events == [] {
    } else {
      var init := events[..|events| - 1];
      MacFollowsLastLinkUp(m, init);
      Reachable(m, init);
      ModeStep(Run(m, init), LinkUps(m, init), events[|events| - 1]);
    }
  }

  // ---- Samples of a link ----

  /** The step takes a sample of the signal. */
  predicate Sampling(r: Mii, e: Event) {
    e.Task? && r.now >= r.taskTime && r.linkSta != 0 && r.valid == 0 && 13 in r.bcr
  }

  /** The samples since the last link-up, after one more event in state r; true is bad. */
  function NextSamples(r: Mii, samples: seq<bool>, e: Event): seq<bool> {
    if e.Query? && LinksUp(r, e.seen) then []
    else if Sampling(r, e) then samples + [9 !in e.reading.port]
    else samples
  }

  /** The samples since the last link-up of a run. */
  function Samples(m: Mii, events: seq<Event>): seq<bool> {
    if events == [] then []
    else
      var init := events[..|events| - 1];
      NextSamples(Run(m, init), Samples(m, init), events[|events| - 1])
  }

  /** The length of the run of bad samples at the end. */
  function TrailingBad(samples: seq<bool>): nat {
    if samples == [] || !samples[|samples| - 1] then 0
    else TrailingBad(samples[..|samples| - 1]) + 1
  }

  /** Five bad samples stand in a row somewhere. */
  predicate FiveInARow(samples: seq<bool>) {
    exists i | 0 <= i <= |samples| - 5 :: FiveFrom(samples, i)
  }

  predicate FiveFrom(samples: seq<bool>, i: nat)
    requires i + 5 <= |samples|
  {
    samples[i] && samples[i + 1] && samples[i + 2] && samples[i + 3] && samples[i + 4]
  }

  lemma {:induction false} TrailingBadMeaning(samples: seq<bool>)
    ensures TrailingBad(samples) <= |samples|
    ensures forall i | |samples| - TrailingBad(samples) <= i < |samples| :: samples[i]
    ensures TrailingBad(samples) < |samples| ==> !samples[|samples| - TrailingBad(samples) - 1]
  {
    if samples == [] {
    } else {
      TrailingBadMeaning(samples[..|samples| - 1]);
    }
  }

  lemma FiveAtTheEnd(samples: seq<bool>, s: bool)
    requires !FiveInARow(samples)
    ensures TrailingBad(samples) <= 4
    ensures TrailingBad(samples + [s]) == if s then TrailingBad(samples) + 1 else 0
    ensures FiveInARow(samples + [s]) <==> s && TrailingBad(samples) == 4
  {
    var all := samples + [s];
    assert all[..|samples|] == samples;
    TrailingBadMeaning(samples);
    TrailingBadMeaning(all);
    if TrailingBad(samples) >= 5 { assert FiveFrom(samples, |samples| - 5); }
    if s && TrailingBad(samples) == 4 { assert FiveFrom(all, |all| - 5); }
    if i: nat :| i + 5 <= |all| && FiveFrom(all, i) {
      if i + 5 < |all| { assert FiveFrom(samples, i); }
    }
  }

  // ---- Supervision ----

  /** The state of a link that has given these samples since it came up. */
  predicate SupervisedBy(r: Mii, samples: seq<bool>) {
    r.linkSta == 1 ==> !FiveInARow(samples) && (r.valid == 0 ==> r.procTime == TrailingBad(samples))
  }

  /** One sample: the counter follows the trailing bad ones, and the fifth in a row ends the link. */
  lemma SupervisionSample(r: Mii, samples: seq<bool>, reading: TaskReads)
    requires Valid(r) && SupervisedBy(r, samples) && r.linkSta == 1 && r.valid == 0 && SPEED_100M in r.bcr
    ensures
      var all, r' := samples + [SIGNAL_GOOD !in reading.port], CheckLinkValid(r, reading);
      && SupervisedBy(r', all)
      && (r'.linkSta == 0 <==> FiveInARow(all))
      && r'.linkSta <= 1
  {
    FiveAtTheEnd(samples, SIGNAL_GOOD !in reading.port);
  }

  lemma UpTask(r: Mii, reading: TaskReads)
    requires r.linkSta == 1 && r.now >= r.taskTime
    ensures LinkProcessing(r, reading) == CheckLinkValid(r.(taskTime := (r.now + 10) % U32), reading)
  {
  }

  /** The link, when it is up, ends in this step. */
  predicate Ends(r: Mii, samples: seq<bool>, e: Event) {
    (e.Query? && LinksDown(r, e.seen)) || (e.Task? && FiveInARow(NextSamples(r, samples, e)))
  }

  lemma SupervisionTask(r: Mii, samples: seq<bool>, e: Event)
    requires Valid(r) && SupervisedBy(r, samples) && e.Task?
    ensures SupervisedBy(Step(r, e), NextSamples(r, samples, e))
    ensures r.linkSta == 1 ==> (Step(r, e).linkSta == 0 <==> Ends(r, samples, e))
  {
    if r.linkSta == 1 && r.now >= r.taskTime {
      UpTask(r, e.reading);
      if Sampling(r, e) { SupervisionSample(r.(taskTime := (r.now + 10) % U32), samples, e.reading); }
    }
  }

  lemma SupervisionQuery(r: Mii, samples: seq<bool>, e: Event)
    requires Valid(r) && SupervisedBy(r, samples) && e.Query?
    ensures SupervisedBy(Step(r, e), NextSamples(r, samples, e))
    ensures r.linkSta == 1 ==> (Step(r, e).linkSta == 0 <==> Ends(r, samples, e))
  {
    QueryOutcome(r, e.seen);
    assert LinksUp(r, e.seen) ==> !FiveInARow([]);
  }

  lemma SupervisionStep(r: Mii, samples: seq<bool>, e: Event)
    requires Valid(r) && SupervisedBy(r, samples)
    ensures SupervisedBy(Step(r, e), NextSamples(r, samples, e))
    ensures r.linkSta == 1 ==> (Step(r, e).linkSta == 0 <==> Ends(r, samples, e))
  {
    match e
    case Task(_) => SupervisionTask(r, samples, e);
    case Query(_) => SupervisionQuery(r, samples, e);
    case _ =>
  }

  lemma {:induction false} RunIsSupervised(m: Mii, events: seq<Event>)
    requires Start(m)
    ensures SupervisedBy(Run(m, events), Samples(m, events))
  {
    if events == [] {
    } else {
      var init := events[..|events| - 1];
      RunIsSupervised(m, init);
      Reachable(m, init);
      SupervisionStep(Run(m, init), Samples(m, init), events[|events| - 1]);
    }
  }

  /** Main result on supervision, for every run from the start: while an up link is not yet declared valid the
      counter is the trailing run of bad samples since the last link-up, and an up link ends exactly at a status
      word without a link or at the fifth bad sample in a row since the last link-up. */
  lemma Supervision(m: Mii, events: seq<Event>, e: Event)
    requires Start(m)
    ensures
      var r, samples := Run(m, events), Samples(m, events);
      && (r.linkSta == 1 ==> !FiveInARow(samples))
      && (r.linkSta == 1 && r.valid == 0 ==> r.procTime == TrailingBad(samples))
      && (r.linkSta == 1 ==>
            (Step(r, e).linkSta == 0 <==>
              (e.Query? && LinksDown(r, e.seen)) || (e.Task? && FiveInARow(Samples(m, events + [e])))))
  {
    RunIsSupervised(m, events);
    Reachable(m, events);
    SupervisionStep(Run(m, events), Samples(m, events), e);
    assert (events + [e])[..|events|] == events;
  }

  // ---- Runs in parts ----

  lemma RunTwo(m: Mii, events: seq<Event>, e1: Event, e2: Event)
    ensures Run(m, events + [e1, e2]) == Step(Step(Run(m, events), e1), e2)
  {
    var one, two := events + [e1], events + [e1, e2];
    assert two[..|one|] == one && one[..|events|] == events;
  }

  lemma {:induction false} RunAppend(m: Mii, a: seq<Event>, b: seq<Event>)
    ensures Run(m, a + b) == Run(Run(m, a), b)
  {
    if b == [] {
      assert a + b == a;
    } else {
      RunAppend(m, a, b[..|b| - 1]);
      assert (a + b)[..|a + b| - 1] == a + b[..|b| - 1];
    }
  }

  /** The word of a linked PHY that has finished negotiating. */
  function Linked(): Bits {
    {LINKED, NEGO_COMPLETE}
  }

  lemma LinkedSettles(m: Mii, seen: QueryReads)
    requires LINKED in seen.linkBsr
    ensures StatusWord(m, seen) == seen.linkBsr
  {
  }

  // ---- The valid flag ----

  /** The flag is set at the end of every event of the run. */
  predicate AlwaysValid(m: Mii, events: seq<Event>) {
    if events == [] then m.valid == 1
    else AlwaysValid(m, events[..|events| - 1]) && Run(m, events).valid == 1
  }

  /** Some query of the run finds the link gone. */
  predicate GoesDown(m: Mii, events: seq<Event>) {
    events != [] &&
    var init, e := events[..|events| - 1], events[|events| - 1];
    GoesDown(m, init) || (e.Query? && LinksDown(Run(m, init), e.seen))
  }

  lemma ValidStep(m: Mii, e: Event)
    requires Valid(m) && m.valid == 1
    ensures Step(m, e).valid == 1 <==> !(e.Query? && LinksDown(m, e.seen))
  {
    match e
    case Query(seen) => QueryOutcome(m, seen);
    case Task(reading) => if m.now >= m.taskTime { UpTask(m, reading); }
    case _ =>
  }

  lemma AlwaysValidNow(m: Mii, events: seq<Event>)
    requires AlwaysValid(m, events)
    ensures Run(m, events).valid == 1
  {
  }

  /** A link declared valid is supervised no more until a query finds it gone; a second link-up, at whatever
      speed, does not start supervision again. */
  lemma {:induction false} ValidUntilDown(m: Mii, events: seq<Event>)
    requires Valid(m) && m.valid == 1
    ensures AlwaysValid(m, events) <==> !GoesDown(m, events)
    ensures Valid(Run(m, events))
  {
    if events == [] {
    } else {
      var init, e := events[..|events| - 1], events[|events| - 1];
      ValidUntilDown(m, init);
      StepKeepsValid(Run(m, init), e);
      if AlwaysValid(m, init) {
        AlwaysValidNow(m, init);
        ValidStep(Run(m, init), e);
      }
    }
  }

  lemma TakenAsValid(m: Mii, reading: TaskReads)
    requires Valid(m) && m.linkSta == 1 && m.valid == 0 && SPEED_100M !in m.bcr && m.now >= m.taskTime
    ensures
      var r := LinkProcessing(m, reading);
      r.linkSta == 1 && r.valid == 1 && r.now == m.now && r.lastStat == m.lastStat && r.lastQuery == m.lastQuery
  {
    UpTask(m, reading);
  }

  /** The failing input: a link comes up at 10M and is declared valid; then the PHY moves to 100M and reports
      another status word with a link, which links up again.  However bad the signal is from then on, the link
      stays up until a query finds it gone. */
  lemma SecondLinkUpIsNotSupervised(m: Mii, later: seq<Event>)
    requires Start(m) && m.now == 0 && m.lastStat == {} && SPEED_100M !in m.bcr
    requires
      var again := QueryReads(Linked() + {0}, Linked() + {0}, 0, []);
      var first := [Tick(1000), Query(QueryReads(Linked(), Linked(), 0, [])), Tick(10), Task(TaskReads({}, {}, 0)),
                    Hardware({SPEED_100M}), Tick(1000)];
      !GoesDown(Run(m, first + [Query(again)]), later)
    ensures
      var again := QueryReads(Linked() + {0}, Linked() + {0}, 0, []);
      var first := [Tick(1000), Query(QueryReads(Linked(), Linked(), 0, [])), Tick(10), Task(TaskReads({}, {}, 0)),
                    Hardware({SPEED_100M}), Tick(1000)];
      var r := Run(m, first + [Query(again)]);
      && LinksUp(Run(m, first), again) && SPEED_100M in r.bcr
      && AlwaysValid(r, later) && Run(r, later).linkSta == 1
  {
    var seen, again := QueryReads(Linked(), Linked(), 0, []), QueryReads(Linked() + {0}, Linked() + {0}, 0, []);
    var bad := TaskReads({}, {}, 0);
    var one := [Tick(1000), Query(seen)];
    var two := one + [Tick(10), Task(bad)];
    var first := two + [Hardware({SPEED_100M}), Tick(1000)];
    assert first == [Tick(1000), Query(seen), Tick(10), Task(bad), Hardware({SPEED_100M}), Tick(1000)];
    FirstLinkUp(m);
    RunTwo(m, one, Tick(10), Task(bad));
    var s1 := Step(Run(m, one), Tick(10));
    Reachable(m, one);
    TakenAsValid(s1, bad);
    RunTwo(m, two, Hardware({SPEED_100M}), Tick(1000));
    var s2 := Run(m, first);
    LinkedSettles(s2, again);
    assert 0 in again.bsr && 0 !in Linked() && 1 !in again.bsr;
    QueryOutcome(s2, again);
    Reachable(m, first + [Query(again)]);
    RunAppend(m, first, [Query(again)]);
    assert Run(s2, [Query(again)]) == Step(s2, Query(again)) by { RunOne(s2, Query(again)); }
    ValidUntilDown(Run(m, first + [Query(again)]), later);
    AlwaysValidNow(Run(m, first + [Query(again)]), later);
  }

  lemma RunOne(m: Mii, e: Event)
    ensures Run(m, [e]) == Step(m, e)
  {
    assert [e][..0] == [];
  }

  /** One second after the start a PHY reports a link. */
  lemma FirstLinkUp(m: Mii)
    requires Start(m) && m.now == 0 && m.lastStat == {}
    ensures
      var r := Run(m, [Tick(1000), Query(QueryReads(Linked(), Linked(), 0, []))]);
      && r.linkSta == 1 && r.valid == 0 && r.procTime == 0 && r.bcr == m.bcr && r.lastStat == Linked()
      && r.taskTime == 0 && r.now == 1000 && r.lastQuery == 1
  {
    var seen := QueryReads(Linked(), Linked(), 0, []);
    var m1 := Step(m, Tick(1000));
    RunTwo(m, [], Tick(1000), Query(seen));
    assert [] + [Tick(1000), Query(seen)] == [Tick(1000), Query(seen)];
    LinkedSettles(m1, seen);
    assert 0 !in Linked() && 0 in ALL_ONES;
    QueryOutcome(m1, seen);
  }

  // ---- A tear-down that nobody notices the end of ----

  /** n times 10 ms and a bad sample. */
  function BadRounds(n: nat): seq<Event> {
    if n == 0 then [] else BadRounds(n - 1) + [Tick(10), Task(TaskReads({}, {}, 0))]
  }

  /** A link at 100M that came up with status word w and has given k bad samples. */
  predicate Watched(r: Mii, k: nat, w: Bits) {
    && Valid(r) && r.linkSta == 1 && r.valid == 0 && r.procTime == k && SPEED_100M in r.bcr && r.lastStat == w
    && r.taskTime <= r.now + 10 && r.now + 10 * (5 - k) + 10 < U32
  }

  lemma BadRound(r: Mii, k: nat, w: Bits)
    requires k < 5 && Watched(r, k, w)
    ensures
      var r' := Step(Step(r, Tick(10)), Task(TaskReads({}, {}, 0)));
      if k < 4 then Watched(r', k + 1, w) else Valid(r') && r'.linkSta == 0 && r'.lastStat == w
  {
    var r1 := Step(r, Tick(10));
    UpTask(r1, TaskReads({}, {}, 0));
    StepKeepsValid(r1, Task(TaskReads({}, {}, 0)));
  }

  lemma {:induction false} BadRoundsCount(m: Mii, n: nat, w: Bits)
    requires n <= 5 && Watched(m, 0, w)
    ensures
      var r := Run(m, BadRounds(n));
      if n < 5 then Watched(r, n, w) else Valid(r) && r.linkSta == 0 && r.lastStat == w
  {
    if n == 0 {
    } else {
      BadRoundsCount(m, n - 1, w);
      RunTwo(m, BadRounds(n - 1), Tick(10), Task(TaskReads({}, {}, 0)));
      BadRound(Run(m, BadRounds(n - 1)), n - 1, w);
    }
  }

  /** A query that first reads the word last acted on does nothing. */
  predicate SameWord(e: Event, w: Bits) {
    e.Query? ==> e.seen.bsr == w
  }

  lemma {:induction false} SameWordStaysDown(m: Mii, events: seq<Event>, w: Bits)
    requires m.linkSta == 0 && m.lastStat == w && forall e | e in events :: SameWord(e, w)
    ensures !ComesUp(m, events) && Run(m, events).linkSta == 0 && Run(m, events).lastStat == w
  {
    if events == [] {
    } else {
      var init, e := events[..|events| - 1], events[|events| - 1];
      assert e in events && forall x | x in init :: x in events;
      SameWordStaysDown(m, init, w);
      if e.Query? { QueryOutcome(Run(m, init), e.seen); }
    }
  }

  /** The failing input: from the start a PHY reports a 100M link, five bad samples tear it down, and from then
      on the PHY reports the same link at every query.  The driver leaves the link down for good. */
  lemma TornDownForGood(m: Mii, later: seq<Event>)
    requires Start(m) && m.now == 0 && m.lastStat == {} && SPEED_100M in m.bcr
    requires forall e | e in later :: SameWord(e, Linked())
    ensures
      var up := [Tick(1000), Query(QueryReads(Linked(), Linked(), 0, []))];
      && Run(m, up).linkSta == 1 && Run(m, up).valid == 0
      && Run(m, up + BadRounds(5)).linkSta == 0 && Run(m, up + BadRounds(5)).lastStat == Linked()
      && Run(m, up + BadRounds(5) + later).linkSta == 0
  {
    var up := [Tick(1000), Query(QueryReads(Linked(), Linked(), 0, []))];
    FirstLinkUp(m);
    Reachable(m, up);
    BadRoundsCount(Run(m, up), 5, Linked());
    RunAppend(m, up, BadRounds(5));
    RunAppend(m, up + BadRounds(5), later);
    SameWordStaysDown(Run(m, up + BadRounds(5)), later, Linked());
  }
}
