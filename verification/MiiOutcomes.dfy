/** The exact outcome of every part of the 10 ms task of the MII driver, in terms of register numbers and bit
    positions, and what follows from it for whole runs. */
module MiiOutcomes {
  import opened Words
  import opened MiiSupervision
  import opened MiiRuns

  // ---- The status word ----

  /** A new chip goes by the first word; an old one by the first word that is not zero, of seventeen. */
  lemma StatusWordMeaning(m: Mii, seen: QueryReads)
    ensures !m.oldChip || seen.linkBsr != {} ==> StatusWord(m, seen) == seen.linkBsr
    ensures m.oldChip && seen.linkBsr == {} ==>
      (StatusWord(m, seen) == {} <==> forall i | 0 <= i < 16 :: Again(seen.again, i) == {})
    ensures m.oldChip && seen.linkBsr == {} && StatusWord(m, seen) != {} ==>
      exists i | 0 <= i < 16 ::
        Again(seen.again, i) == StatusWord(m, seen) && forall j | 0 <= j < i :: Again(seen.again, j) == {}
  {
    SettledIsFirstNonzero(seen.linkBsr, seen.again, 0);
  }

  // ---- WCHNET_CheckPHYPN ----

  /** Register 0x10 is looked at on page 0. */
  function Looked(m: Mii): Mii {
    m.(page := {}, accesses := m.accesses + [Write(m.page, 31, {}), Read({}, 16)])
  }

  /** The accesses of the pulse on bit 5 of register 0x16. */
  function Pulse(polarity: Bits): seq<Access> {
    [Write({}, 31, {}), Read({}, 22), Write({}, 22, polarity + {5}), Read({}, 22), Write({}, 22, polarity - {5}),
     Read({}, 30)]
  }

  /** Armed and before its deadline the check does nothing.  Otherwise it looks: a right polarity disarms, a
      wrong one arms, or, when armed, disarms and turns the polarity unless the partner negotiates. */
  lemma PolarityOutcome(m: Mii, time: nat, reading: TaskReads)
    ensures
      CheckPhyPn(m, time, reading) ==
        if m.procStep != 0 && m.now < m.procTime then m
        else if 12 !in reading.port then Looked(m).(procStep := 0, procTime := 0)
        else if m.procStep == 0 then Looked(m).(procStep := 1, procTime := (m.now + time) % 0x1_0000_0000)
        else if time == 200 || 0 !in reading.expansion then
          Looked(m).(procStep := 0, procTime := 0, polarity := m.polarity - {5},
                     accesses := m.accesses + [Write(m.page, 31, {}), Read({}, 16)] + Pulse(m.polarity))
        else Looked(m).(procStep := 0, procTime := 0)
  {
    if !(m.procStep != 0 && m.now < m.procTime) && 12 in reading.port && m.procStep != 0 {
      PulseOutcome(Looked(m).(procStep := 0, procTime := 0));
    }
  }

  lemma PulseOutcome(m: Mii)
    requires m.page == {}
    ensures TurnPolarity(m) == m.(polarity := m.polarity - {5}, accesses := m.accesses + Pulse(m.polarity))
  {
    assert m.polarity + {5} - {5} == m.polarity - {5};
    var a := m.accesses;
    assert a + [Write({}, 31, {})] + [Read({}, 22)] + [Write({}, 22, m.polarity + {5})] + [Read({}, 22)]
           + [Write({}, 22, m.polarity - {5})] + [Read({}, 30)] == a + Pulse(m.polarity);
  }

  // ---- WCHNET_AccelerateLink ----

  /** Step 0 powers the PHY down, step 1 counts and powers it up again after its 122nd call, step 2 waits for
      state 2 and puts the link timer back, step 3 does nothing. */
  lemma AidOutcome(m: Mii, reading: TaskReads)
    requires m.accTime < 255
    ensures
      AccelerateLink(m, reading) ==
        if m.accStep == 0 then
          m.(accStep := 1, accTime := 0, page := {}, power := m.power - {15}, bcr := m.bcr + {11}, linkTimer := {2},
             accesses := m.accesses + [Write(m.page, 31, {}), Read({}, 24), Write({}, 24, m.power - {15}),
                                       Write({}, 0, m.bcr + {11}), Write({}, 31, {}), Write({}, 19, {2})])
        else if m.accStep == 1 && m.accTime < 121 then m.(accTime := m.accTime + 1)
        else if m.accStep == 1 then
          m.(accStep := 2, accTime := m.accTime + 1, page := {}, power := m.power + {15}, bcr := m.bcr - {11},
             accesses := m.accesses + [Write(m.page, 31, {}), Read({}, 24), Write({}, 24, m.power + {15}),
                                       Write({}, 0, m.bcr - {11})])
        else if m.accStep == 2 && reading.state % 16 == 2 then
          m.(accStep := 3, page := {}, linkTimer := {},
             accesses := m.accesses + [Write(m.page, 31, {0, 1, 5, 6}), Read({0, 1, 5, 6}, 25),
                                       Write({0, 1, 5, 6}, 31, {}), Write({}, 19, {})])
        else if m.accStep == 2 then
          m.(page := {0, 1, 5, 6},
             accesses := m.accesses + [Write(m.page, 31, {0, 1, 5, 6}), Read({0, 1, 5, 6}, 25)])
        else m
  {
    var a, w := m.accesses, Write(m.page, 31, {});
    var down, up := m.power - {15}, m.power + {15};
    assert PAGE_99 == {0, 1, 5, 6};
    assert a + [w] + [Read({}, 24)] + [Write({}, 24, down)] + [Write({}, 0, m.bcr + {11})] + [Write({}, 31, {})]
           + [Write({}, 19, {2})]
           == a + [w, Read({}, 24), Write({}, 24, down), Write({}, 0, m.bcr + {11}), Write({}, 31, {}),
                   Write({}, 19, {2})];
    assert a + [w] + [Read({}, 24)] + [Write({}, 24, up)] + [Write({}, 0, m.bcr - {11})]
           == a + [w, Read({}, 24), Write({}, 24, up), Write({}, 0, m.bcr - {11})];
    StateLook(m);
  }

  lemma StateLook(m: Mii)
    ensures
      var looked := ReadPhy(WritePhy(m, R_PAGE, {0, 1, 5, 6}), R_STATE);
      && looked.accesses == m.accesses + [Write(m.page, 31, {0, 1, 5, 6}), Read({0, 1, 5, 6}, 25)]
      && looked.accesses + [Write({0, 1, 5, 6}, 31, {})] + [Write({}, 19, {})]
         == m.accesses + [Write(m.page, 31, {0, 1, 5, 6}), Read({0, 1, 5, 6}, 25), Write({0, 1, 5, 6}, 31, {}),
                          Write({}, 19, {})]
  {
  }

  // ---- WCHNET_CheckLinkValid ----

  /** A link at 10M is declared valid; one at 100M is looked at: a good signal clears the count, the fifth bad
      one in a row resets the PHY, puts BCR back and takes the link down. */
  lemma ValidityOutcome(m: Mii, reading: TaskReads)
    requires m.procTime <= 4
    ensures
      CheckLinkValid(m, reading) ==
        if m.valid != 0 then m
        else if 13 !in m.bcr then m.(valid := 1, procTime := 0)
        else if 9 in reading.port then Looked(m).(procTime := 0)
        else if m.procTime == 4 then
          Looked(m).(linkSta := 0, valid := 0, procTime := 0,
                     accesses := m.accesses + [Write(m.page, 31, {}), Read({}, 16), Write({}, 0, {15}),
                                               Write({}, 0, m.bcr)])
        else Looked(m).(procTime := m.procTime + 1)
  {
    var a, w := m.accesses, Write(m.page, 31, {});
    assert a + [w] + [Read({}, 16)] == a + [w, Read({}, 16)];
    assert a + [w, Read({}, 16)] + [Write({}, 0, {15})] + [Write({}, 0, m.bcr)]
           == a + [w, Read({}, 16), Write({}, 0, {15}), Write({}, 0, m.bcr)];
  }

  // ---- WCHNET_LinkProcessing ----

  /** The task runs when LocalTime has reached its time and sets that time 10 ms ahead.  A link that is up is
      checked; one that is down is aided, with 300 ms between two looks at the polarity, when negotiation is on,
      and looked at with 200 ms in between at a forced 10M. */
  lemma TaskOutcome(m: Mii, reading: TaskReads)
    ensures
      var due := m.(taskTime := (m.now + 10) % 0x1_0000_0000);
      LinkProcessing(m, reading) ==
        if m.now < m.taskTime then m
        else if m.linkSta != 0 then CheckLinkValid(due, reading)
        else if 12 in m.bcr then AccelerateLink(CheckPhyPn(due, 300, reading), reading)
        else if 13 !in m.bcr then CheckPhyPn(due, 200, reading)
        else due
  {
  }

  // ---- The aids over a run ----

  /** What the steps of the aid mean for the PHY: powered down in step 1, up again from step 2 on, with the link
      timer shortened in steps 1 and 2 and back at its default in step 3. */
  predicate AidAgrees(m: Mii) {
    && (m.accStep == 1 ==> 11 in m.bcr && 15 !in m.power && m.linkTimer == {2})
    && (m.accStep == 2 ==> 11 !in m.bcr && 15 in m.power && m.linkTimer == {2})
    && (m.accStep == 3 ==> 11 !in m.bcr && 15 in m.power && m.linkTimer == {})
  }

  lemma PnKeepsAid(m: Mii, time: nat, reading: TaskReads)
    requires AidAgrees(m)
    ensures AidAgrees(CheckPhyPn(m, time, reading))
  {
    PolarityOutcome(m, time, reading);
  }

  lemma AccelerateKeepsAid(m: Mii, reading: TaskReads)
    requires AidAgrees(m) && m.accTime < 255
    ensures AidAgrees(AccelerateLink(m, reading))
  {
    AidOutcome(m, reading);
  }

  lemma TaskKeepsAid(m: Mii, reading: TaskReads)
    requires AidAgrees(m) && Valid(m)
    ensures AidAgrees(LinkProcessing(m, reading))
  {
    var due := m.(taskTime := (m.now + 10) % 0x1_0000_0000);
    TaskOutcome(m, reading);
    if m.linkSta != 0 {
      ValidityOutcome(due, reading);
    } else {
      PnKeepsAid(due, 300, reading);
      PnKeepsAid(due, 200, reading);
      AccelerateKeepsAid(CheckPhyPn(due, 300, reading), reading);
    }
  }

  lemma StepKeepsAid(m: Mii, e: Event)
    requires AidAgrees(m) && Valid(m)
    ensures AidAgrees(Step(m, e))
  {
    match e
    case Query(seen) =>
      QueryOutcome(m, seen);
      if LinksUp(m, seen) { LinkUpOutcome(m, seen); } else { NoLinkUpOutcome(m, seen); }
    case Task(reading) => TaskKeepsAid(m, reading);
    case _ =>
  }

  /** Main result on the aids: in every reachable state the PHY registers agree with AccelerateLinkStep. */
  lemma {:induction false} AidsAgree(m: Mii, events: seq<Event>)
    requires Start(m)
    ensures AidAgrees(Run(m, events))
  {
    if events == [] {
    } else {
      var init := events[..|events| - 1];
      AidsAgree(m, init);
      Reachable(m, init);
      StepKeepsAid(Run(m, init), events[|events| - 1]);
    }
  }

  // ---- The deadline of a polarity turn ----

  /** The look that armed the check: its time, the wait asked for, and whether a status word without a link has
      been taken since. */
  datatype Arm = Arm(at: nat, wait: nat, cut: bool)

  function NextArm(r: Mii, arm: Arm, e: Event): Arm {
    if e.Task? && r.procStep == 0 then Arm(r.now, if 12 in r.bcr then 300 else 200, false)
    else if e.Query? && LinksDown(r, e.seen) then arm.(cut := true)
    else arm
  }

  function Armed(m: Mii, events: seq<Event>): Arm {
    if events == [] then Arm(0, 0, false)
    else
      var init := events[..|events| - 1];
      NextArm(Run(m, init), Armed(m, init), events[|events| - 1])
  }

  predicate DeadlineOf(r: Mii, arm: Arm) {
    r.linkSta == 0 && r.procStep == 1 ==> r.procTime == if arm.cut then 0 else (arm.at + arm.wait) % 0x1_0000_0000
  }

  lemma TaskDeadline(r: Mii, arm: Arm, e: Event)
    requires DeadlineOf(r, arm) && Valid(r) && e.Task?
    ensures DeadlineOf(Step(r, e), NextArm(r, arm, e))
  {
    TaskOutcome(r, e.reading);
    var due := r.(taskTime := (r.now + 10) % 0x1_0000_0000);
    if r.linkSta == 0 {
      DownDeadline(due, arm, e);
    } else {
      ValidityOutcome(due, e.reading);
    }
  }

  lemma DownDeadline(r: Mii, arm: Arm, e: Event)
    requires DeadlineOf(r, arm) && Valid(r) && e.Task? && r.linkSta == 0
    ensures
      var arm' := NextArm(r, arm, e);
      && DeadlineOf(r, arm')
      && (12 in r.bcr ==> DeadlineOf(AccelerateLink(CheckPhyPn(r, 300, e.reading), e.reading), arm'))
      && (12 !in r.bcr ==> DeadlineOf(CheckPhyPn(r, 200, e.reading), arm'))
  {
    PolarityOutcome(r, 300, e.reading);
    PolarityOutcome(r, 200, e.reading);
    AidOutcome(CheckPhyPn(r, 300, e.reading), e.reading);
  }

  lemma StepDeadline(r: Mii, arm: Arm, e: Event)
    requires DeadlineOf(r, arm) && Valid(r)
    ensures DeadlineOf(Step(r, e), NextArm(r, arm, e))
  {
    match e
    case Task(_) => TaskDeadline(r, arm, e);
    case Query(seen) =>
      QueryOutcome(r, seen);
      if LinksUp(r, seen) { LinkUpOutcome(r, seen); } else { NoLinkUpOutcome(r, seen); }
    case _ =>
  }

  /** Main result on the deadline: in every reachable state of a link that is down and whose check is armed, the
      deadline is the time of the arming look plus 300 ms, or 200 ms at a forced 10M, if and only if no status
      word without a link was taken since; otherwise it is 0. */
  lemma {:induction false} Deadline(m: Mii, events: seq<Event>)
    requires Start(m)
    ensures DeadlineOf(Run(m, events), Armed(m, events))
  {
    if events == [] {
    } else {
      var init := events[..|events| - 1];
      Deadline(m, init);
      Reachable(m, init);
      StepDeadline(Run(m, init), Armed(m, init), events[|events| - 1]);
    }
  }

  /** The failing input: a look at 990 ms arms the check for 1290 ms, a status word without a link at 1000 ms
      clears the deadline, and the look at 1010 ms turns the polarity after 20 ms instead of 300. */
  lemma TurnComesEarly(m: Mii, wrong: TaskReads, down: QueryReads)
    requires Start(m) && m.now == 0 && m.lastStat == {} && 12 in m.bcr
    requires wrong == TaskReads({12}, {}, 0) && down == QueryReads({3}, {3}, 0, [])
    ensures
      var s1 := Run(m, [Tick(990), Task(wrong)]);
      var s2 := Run(s1, [Tick(10), Query(down)]);
      var s3 := Run(s2, [Tick(10), Task(wrong)]);
      && s1.procStep == 1 && s1.procTime == 1290
      && s2.procStep == 1 && s2.procTime == 0
      && s3.now == 1010 && s3.procStep == 0 && s3.polarity == s2.polarity - {5}
  {
    ArmingLook(m, wrong);
    var s1 := Run(m, [Tick(990), Task(wrong)]);
    DeadlineCleared(s1, down);
    var s2 := Run(s1, [Tick(10), Query(down)]);
    TwoSteps(s2, Tick(10), Task(wrong));
    SecondLook(Step(s2, Tick(10)), wrong);
  }

  /** The check is armed, and the PHY is being powered down. */
  predicate Waiting(m: Mii, now: nat, procTime: nat) {
    && m.linkSta == 0 && m.procStep == 1 && m.procTime == procTime && m.taskTime == 1000 && m.now == now
    && 12 in m.bcr && m.lastStat != {3} && m.lastQuery == 0 && m.accTime == 0
  }

  lemma ArmingLook(m: Mii, wrong: TaskReads)
    requires Start(m) && m.now == 0 && m.lastStat == {} && 12 in m.bcr && 12 in wrong.port
    ensures Waiting(Run(m, [Tick(990), Task(wrong)]), 990, 1290)
  {
    TwoSteps(m, Tick(990), Task(wrong));
    FirstLook(Step(m, Tick(990)), wrong);
    assert 3 in {3};
  }

  lemma DeadlineCleared(m: Mii, down: QueryReads)
    requires Waiting(m, 990, 1290) && down == QueryReads({3}, {3}, 0, [])
    ensures
      var r := Run(m, [Tick(10), Query(down)]);
      && r.linkSta == 0 && r.procStep == 1 && r.procTime == 0 && r.taskTime == 1000 && r.now == 1000
      && 12 in r.bcr && r.accTime == 0
  {
    var m1 := Step(m, Tick(10));
    TwoSteps(m, Tick(10), Query(down));
    assert StatusWord(m1, down) == {3} by { StatusWordMeaning(m1, down); }
    assert 3 in {3} && 2 !in {3} && 0 !in {3};
    QueryOutcome(m1, down);
    NoLinkUpOutcome(m1, down);
  }

  lemma TwoSteps(m: Mii, e1: Event, e2: Event)
    ensures Run(m, [e1, e2]) == Step(Step(m, e1), e2)
  {
    RunTwo(m, [], e1, e2);
    assert [] + [e1, e2] == [e1, e2];
  }

  lemma FirstLook(m: Mii, wrong: TaskReads)
    requires m.linkSta == 0 && m.procStep == 0 && m.accStep == 0 && 12 in m.bcr && m.taskTime <= m.now == 990
    requires 12 in wrong.port && m.accTime < 255
    ensures
      var r := LinkProcessing(m, wrong);
      && r.linkSta == 0 && r.procStep == 1 && r.procTime == 1290 && r.taskTime == 1000 && r.now == 990
      && 12 in r.bcr && r.lastStat == m.lastStat && r.lastQuery == m.lastQuery && r.accStep == 1 && r.accTime == 0
  {
    var due := m.(taskTime := 1000);
    TaskOutcome(m, wrong);
    PolarityOutcome(due, 300, wrong);
    AidOutcome(CheckPhyPn(due, 300, wrong), wrong);
  }

  lemma SecondLook(m: Mii, wrong: TaskReads)
    requires m.linkSta == 0 && m.procStep == 1 && m.procTime == 0 && 12 in m.bcr && m.taskTime <= m.now
    requires m.accTime < 255 && 12 in wrong.port && 0 !in wrong.expansion
    ensures
      var r := LinkProcessing(m, wrong);
      r.procStep == 0 && r.polarity == m.polarity - {5} && r.now == m.now
  {
    var due := m.(taskTime := (m.now + 10) % 0x1_0000_0000);
    var looked := CheckPhyPn(due, 300, wrong);
    TaskOutcome(m, wrong);
    PolarityOutcome(due, 300, wrong);
    assert looked.accTime == m.accTime;
    AidOutcome(looked, wrong);
  }
}
