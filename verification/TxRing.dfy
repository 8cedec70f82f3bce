/** The chained Tx descriptor ring of the 10M driver: the CPU fills a descriptor word by word and hands it
    over with the OWN bit while the DMA engine fetches, transmits and returns descriptors on its own.  One
    step is one memory access, so a schedule is any interleaving of the two. */
module TxRing {
  import opened Words

  const OWN: nat := 31
  const IC: nat := 30
  const LS: nat := 29
  const FS: nat := 28
  const CIC_FULL: Bits := {23, 22}
  const TCH: nat := 20
  const MAX_PACKET_SIZE := 1524
  const TBS1 := 0x1FFF       // the length field of TDES1: its 13 low bits

  /** TDES0, TDES1, TDES2 and, in TDES3, the index of the next descriptor. */
  datatype Descriptor = Descriptor(status: Bits, control: nat, buffer: nat, next: nat)

  /** What one descriptor tells the DMA engine to send. */
  datatype Frame = Frame(length: nat, buffer: nat, marks: Bits)

  /** The access the sending task performs next. */
  datatype Cpu =
    | Idle
    | StoreLength(len: nat, buf: nat)
    | StoreBuffer(len: nat, buf: nat)
    | LoadForMarks(len: nat, buf: nat)
    | StoreMarks(len: nat, buf: nat, loaded: Bits)
    | LoadForOwn(len: nat, buf: nat)
    | StoreOwn(len: nat, buf: nat, loaded: Bits)
    | ClearUnavailable
    | DemandPoll
    | Advance

  /** The DMA engine reads TDES0, TDES1 and TDES2 in turn, sends, and writes TDES0 back. */
  datatype Dma =
    | Polling
    | HasStatus(status: Bits)
    | HasControl(status: Bits, control: nat)
    | Sending(frame: Frame)
    | Suspended

  datatype Reply = Reply(frame: Frame, ok: bool)

  datatype Ring = Ring(
    desc: seq<Descriptor>, toSet: nat, cpu: Cpu,
    cur: nat, dma: Dma,
    marks: Bits,            // the segment and checksum bits every frame is sent with
    accepted: seq<Frame>,   // frames whose OWN bit has been stored, oldest first
    wire: seq<Frame>,       // frames the DMA engine has finished sending
    replies: seq<Reply>)    // what the send calls have returned

  datatype Action =
    | Call(len: nat, buf: nat)   // a send call begins: the OWN test
    | Store                        // the send call in progress performs its next access
    | DmaMove(writeBack: Bits)     // the DMA engine takes its next step

  predicate Owned(d: Descriptor) {
    OWN in d.status
  }

  function FrameOf(len: nat, buf: nat, marks: Bits): Frame {
    Frame(LengthField(len), buf, marks)
  }

  /** `value & TBS1`. */
  function LengthField(value: nat): nat {
    value % (TBS1 + 1)
  }

  /** The segment bits set for a frame, with or without hardware checksums. */
  function Marks(hardwareChecksum: bool): Bits {
    if hardwareChecksum then {LS, FS} + CIC_FULL else {LS, FS}
  }

  predicate Shape(s: Ring) {
    && s.toSet < |s.desc|
    && s.cur < |s.desc|
    && forall i | 0 <= i < |s.desc| :: s.desc[i].next < |s.desc|
  }

  // ---- Steps ----

  function SendStep(s: Ring): Ring
    requires Shape(s)
  {
    var d := s.desc[s.toSet];
    match s.cpu
    case Idle => s
    case StoreLength(len, buf) =>
      s.(desc := s.desc[s.toSet := d.(control := LengthField(len))], cpu := StoreBuffer(len, buf))
    case StoreBuffer(len, buf) =>
      s.(desc := s.desc[s.toSet := d.(buffer := buf)], cpu := LoadForMarks(len, buf))
    case LoadForMarks(len, buf) => s.(cpu := StoreMarks(len, buf, d.status))
    case StoreMarks(len, buf, loaded) =>
      s.(desc := s.desc[s.toSet := d.(status := loaded + s.marks)], cpu := LoadForOwn(len, buf))
    case LoadForOwn(len, buf) => s.(cpu := StoreOwn(len, buf, d.status))
    case StoreOwn(len, buf, loaded) =>
      s.(desc := s.desc[s.toSet := d.(status := loaded + {OWN})], cpu := ClearUnavailable,
         accepted := s.accepted + [FrameOf(len, buf, s.marks)])
    case ClearUnavailable => s.(cpu := DemandPoll)
    case DemandPoll => s.(dma := if s.dma.Suspended? then Polling else s.dma, cpu := Advance)
    case Advance =>
      s.(toSet := d.next, cpu := Idle,
         replies := if s.accepted == [] then s.replies
                    else s.replies + [Reply(s.accepted[|s.accepted| - 1], true)])
  }

  function CallStep(s: Ring, len: nat, buf: nat): Ring
    requires Shape(s)
  {
    if !s.cpu.Idle? then s
    else if Owned(s.desc[s.toSet]) then
      s.(replies := s.replies + [Reply(FrameOf(len, buf, s.marks), false)])
    else s.(cpu := StoreLength(len, buf))
  }

  function DmaStep(s: Ring, writeBack: Bits): Ring
    requires Shape(s)
  {
    var d := s.desc[s.cur];
    match s.dma
    case Polling => s.(dma := if Owned(d) then HasStatus(d.status) else Suspended)
    case HasStatus(status) => s.(dma := HasControl(status, d.control))
    case HasControl(status, control) =>
      s.(dma := Sending(Frame(LengthField(control), d.buffer, status * s.marks)))
    case Sending(frame) =>
      s.(desc := s.desc[s.cur := d.(status := writeBack - {OWN})], cur := d.next, dma := Polling,
         wire := s.wire + [frame])
    case Suspended => s
  }

  function Step(s: Ring, a: Action): Ring
    requires Shape(s)
  {
    match a
    case Call(len, buf) => CallStep(s, len, buf)
    case Store => SendStep(s)
    case DmaMove(writeBack) => DmaStep(s, writeBack)
  }

  lemma StepKeepsShape(s: Ring, a: Action)
    requires Shape(s)
    ensures Shape(Step(s, a)) && |Step(s, a).desc| == |s.desc|
  {
  }

  function Run(s: Ring, schedule: seq<Action>): Ring
    requires Shape(s)
    decreases |schedule|
  {
    if schedule == [] then s
    else
      StepKeepsShape(s, schedule[0]);
      Run(Step(s, schedule[0]), schedule[1..])
  }

  // ---- Ring positions ----

  /** The descriptor that the k-th frame ever accepted goes into: k modulo n. */
  function Slot(k: nat, n: nat): (i: nat)
    requires n > 0
    ensures i < n
  {
    if k < n then k else Slot(k - n, n)
  }

  lemma {:induction false} SlotNext(k: nat, n: nat)
    requires n > 0
    ensures Slot(k + 1, n) == if Slot(k, n) + 1 < n then Slot(k, n) + 1 else 0
  {
    if k < n {
    } else {
      SlotNext(k - n, n);
    }
  }

  lemma {:induction false} SlotsDiffer(j: nat, k: nat, n: nat)
    requires n > 0 && j < k < j + n
    ensures Slot(j, n) != Slot(k, n)
  {
    if j < n {
    } else {
      SlotsDiffer(j - n, k - n, n);
    }
  }

  // ---- The invariant ----

  /** A descriptor as the DMA engine must find it for frame f. */
  predicate Holds(d: Descriptor, f: Frame, marks: Bits) {
    Owned(d) && d.control == f.length < TBS1 + 1 && d.buffer == f.buffer && f.marks == marks <= d.status
  }

  /** The OWN bit has been stored but the cursor not yet moved. */
  predicate HandingOver(c: Cpu) {
    c.ClearUnavailable? || c.DemandPoll? || c.Advance?
  }

  /** How many frames the cursor has moved past. */
  function Returned(s: Ring): int {
    |s.accepted| - if HandingOver(s.cpu) then 1 else 0
  }

  /** The frames whose send call returned ETH_SUCCESS, in order. */
  function Sent(replies: seq<Reply>): seq<Frame> {
    if replies == [] then []
    else
      var r := replies[|replies| - 1];
      Sent(replies[..|replies| - 1]) + if r.ok then [r.frame] else []
  }

  /** Owned descriptors are exactly the run from the DMA cursor up to the CPU cursor, each holding its frame. */
  ghost predicate OwnedRun(s: Ring)
    requires |s.desc| > 0
  {
    var n := |s.desc|;
    && (forall k: nat | |s.wire| <= k < |s.accepted| ::
          Holds(s.desc[Slot(k, n)], s.accepted[k], s.marks))
    && (forall k: nat | |s.accepted| <= k < |s.wire| + n ::
          !Owned(s.desc[Slot(k, n)]))
  }

  /** How far the descriptor under the CPU cursor has been filled. */
  ghost predicate Filled(s: Ring)
    requires s.toSet < |s.desc|
  {
    var d := s.desc[s.toSet];
    match s.cpu
    case StoreLength(_, _) => true
    case StoreBuffer(len, _) => d.control == LengthField(len)
    case LoadForMarks(len, buf) => d.control == LengthField(len) && d.buffer == buf
    case StoreMarks(len, buf, loaded) =>
      d.control == LengthField(len) && d.buffer == buf && loaded == d.status
    case LoadForOwn(len, buf) =>
      d.control == LengthField(len) && d.buffer == buf && s.marks <= d.status
    case StoreOwn(len, buf, loaded) =>
      && d.control == LengthField(len) && d.buffer == buf && s.marks <= d.status
      && loaded == d.status
    case _ => true
  }

  /** What the DMA engine has latched belongs to the oldest frame not yet sent.  It sleeps only while
      nothing is queued, or while the poll demand that will wake it is still to come. */
  ghost predicate Latched(s: Ring)
    requires s.cur < |s.desc|
  {
    match s.dma
    case Polling => true
    case HasStatus(status) => |s.wire| < |s.accepted| && status == s.desc[s.cur].status
    case HasControl(status, control) =>
      |s.wire| < |s.accepted| && status == s.desc[s.cur].status && control == s.desc[s.cur].control
    case Sending(frame) => |s.wire| < |s.accepted| && frame == s.accepted[|s.wire|]
    case Suspended => |s.accepted| == |s.wire| || s.cpu.ClearUnavailable? || s.cpu.DemandPoll?
  }

  /** The cursors, the history and the ring structure. */
  ghost predicate Counted(s: Ring) {
    var n := |s.desc|;
    && Shape(s)
    && (forall i | 0 <= i < n :: s.desc[i].next == if i + 1 < n then i + 1 else 0)
    && |s.wire| <= |s.accepted| <= |s.wire| + n
    && s.wire == s.accepted[..|s.wire|]
    && s.cur == Slot(|s.wire|, n)
    && 0 <= Returned(s)
    && s.toSet == Slot(Returned(s), n)
    && s.accepted[..Returned(s)] == Sent(s.replies)
    && (!s.cpu.Idle? && !HandingOver(s.cpu) ==> |s.accepted| < |s.wire| + n)
    && OWN !in s.marks
  }

  ghost predicate Valid(s: Ring) {
    Counted(s) && OwnedRun(s) && Filled(s) && Latched(s)
  }

  // ---- Every step keeps the invariant ----

  /** The CPU cursor is at the free position after the run of owned descriptors. */
  lemma CursorIsFree(s: Ring)
    requires Counted(s) && !HandingOver(s.cpu) && |s.accepted| < |s.wire| + |s.desc|
    ensures forall k: nat | |s.wire| <= k < |s.wire| + |s.desc| && k != |s.accepted| :: Slot(k, |s.desc|) != s.toSet
  {
    forall k: nat | |s.wire| <= k < |s.wire| + |s.desc| && k != |s.accepted|
      ensures Slot(k, |s.desc|) != s.toSet
    {
      if k < |s.accepted| {
        SlotsDiffer(k, |s.accepted|, |s.desc|);
      } else {
        SlotsDiffer(|s.accepted|, k, |s.desc|);
      }
    }
  }

  /** Storing into the descriptor under the cursor without setting OWN moves no boundary. */
  lemma FillKeepsRun(s: Ring, d: Descriptor, s': Ring)
    requires Counted(s) && OwnedRun(s) && !HandingOver(s.cpu) && |s.accepted| < |s.wire| + |s.desc|
    requires !Owned(d) && s'.desc == s.desc[s.toSet := d]
    requires s'.accepted == s.accepted && s'.wire == s.wire && s'.marks == s.marks
    ensures OwnedRun(s')
  {
    CursorIsFree(s);
  }

  /** Setting OWN extends the run by the descriptor under the cursor. */
  lemma HandOverKeepsRun(s: Ring, d: Descriptor, f: Frame, s': Ring)
    requires Counted(s) && OwnedRun(s) && !HandingOver(s.cpu) && |s.accepted| < |s.wire| + |s.desc|
    requires Holds(d, f, s.marks) && s'.desc == s.desc[s.toSet := d]
    requires s'.accepted == s.accepted + [f] && s'.wire == s.wire && s'.marks == s.marks
    ensures OwnedRun(s')
  {
    CursorIsFree(s);
  }

  /** The descriptor the DMA engine is working on is not the one the CPU is filling. */
  lemma LatchSurvives(s: Ring, s': Ring)
    requires Counted(s) && Latched(s) && !HandingOver(s.cpu) && |s.accepted| < |s.wire| + |s.desc|
    requires |s'.desc| == |s.desc| && s'.cur == s.cur && s'.dma == s.dma && s'.wire == s.wire
    requires s.accepted <= s'.accepted
    requires forall i | 0 <= i < |s.desc| && i != s.toSet :: s'.desc[i] == s.desc[i]
    requires s'.accepted == s.accepted || s'.cpu.ClearUnavailable?
    ensures Latched(s')
  {
    CursorIsFree(s);
  }

  predicate Filling(c: Cpu) {
    c.StoreLength? || c.StoreBuffer? || c.LoadForMarks? || c.StoreMarks? || c.LoadForOwn?
  }

  lemma FillKeepsCount(s: Ring)
    requires Counted(s) && Filling(s.cpu)
    ensures Counted(SendStep(s))
  {
  }

  lemma FillKeepsValid(s: Ring)
    requires Valid(s) && Filling(s.cpu)
    ensures Valid(SendStep(s))
  {
    var s' := SendStep(s);
    var d := s'.desc[s.toSet];
    assert !Owned(s.desc[Slot(|s.accepted|, |s.desc|)]);
    assert s'.desc == s.desc[s.toSet := d];
    FillKeepsCount(s);
    FillKeepsRun(s, d, s');
    LatchSurvives(s, s');
  }

  lemma HandOverKeepsValid(s: Ring)
    requires Valid(s) && s.cpu.StoreOwn?
    ensures Valid(SendStep(s))
  {
    var s' := SendStep(s);
    HandOverKeepsRun(s, s'.desc[s.toSet], FrameOf(s.cpu.len, s.cpu.buf, s.marks), s');
    LatchSurvives(s, s');
    assert s'.accepted[..Returned(s')] == s.accepted;
    assert Counted(s');
  }

  /** After the OWN store the two register writes only touch the DMA engine's sleep. */
  lemma WakeKeepsValid(s: Ring)
    requires Valid(s) && (s.cpu.ClearUnavailable? || s.cpu.DemandPoll?)
    ensures Valid(SendStep(s))
  {
    assert OwnedRun(SendStep(s));
  }

  lemma AdvanceKeepsCount(s: Ring)
    requires Counted(s) && s.cpu.Advance?
    ensures Counted(SendStep(s))
  {
    var s', h := SendStep(s), |s.accepted|;
    SlotNext(h - 1, |s.desc|);
    assert s'.replies[..|s'.replies| - 1] == s.replies;
    assert s'.accepted[..h] == s.accepted[..h - 1] + [s.accepted[h - 1]];
  }

  lemma AdvanceKeepsValid(s: Ring)
    requires Valid(s) && s.cpu.Advance?
    ensures Valid(SendStep(s))
  {
    AdvanceKeepsCount(s);
  }

  /** Clearing OWN and moving on shortens the run at its old end. */
  lemma GiveBackKeepsRun(s: Ring, d: Descriptor, s': Ring)
    requires Counted(s) && OwnedRun(s) && |s.wire| < |s.accepted|
    requires !Owned(d) && s'.desc == s.desc[s.cur := d]
    requires s'.accepted == s.accepted && |s'.wire| == |s.wire| + 1 && s'.marks == s.marks
    ensures OwnedRun(s')
  {
    var n, t := |s.desc|, |s.wire|;
    assert Slot(t + n, n) == Slot(t, n);
    forall k: nat | t + 1 <= k < t + n ensures Slot(k, n) != s.cur {
      SlotsDiffer(t, k, n);
    }
  }

  lemma GiveBackKeepsCount(s: Ring, writeBack: Bits)
    requires Counted(s) && s.dma.Sending? && |s.wire| < |s.accepted| && s.dma.frame == s.accepted[|s.wire|]
    ensures Counted(DmaStep(s, writeBack))
  {
    SlotNext(|s.wire|, |s.desc|);
    assert s.wire + [s.dma.frame] == s.accepted[..|s.wire| + 1];
  }

  lemma DmaReturnsDescriptor(s: Ring, writeBack: Bits)
    requires Valid(s) && s.dma.Sending?
    ensures Valid(DmaStep(s, writeBack))
  {
    var s' := DmaStep(s, writeBack);
    GiveBackKeepsRun(s, s'.desc[s.cur], s');
    GiveBackKeepsCount(s, writeBack);
    assert Filled(s') by {
      if !s.cpu.Idle? && !HandingOver(s.cpu) {
        SlotsDiffer(|s.wire|, |s.accepted|, |s.desc|);
      }
    }
  }

  lemma DmaFetchKeepsValid(s: Ring, writeBack: Bits)
    requires Valid(s) && !s.dma.Sending?
    ensures Valid(DmaStep(s, writeBack))
  {
    FetchLatches(s, writeBack);
    assert OwnedRun(DmaStep(s, writeBack));
  }

  /** What is read is the oldest unsent frame. */
  lemma FetchLatches(s: Ring, writeBack: Bits)
    requires Counted(s) && OwnedRun(s) && Latched(s) && !s.dma.Sending?
    ensures Latched(DmaStep(s, writeBack))
  {
    var t := |s.wire|;
    if t < |s.accepted| {
      assert Holds(s.desc[Slot(t, |s.desc|)], s.accepted[t], s.marks);
    } else {
      assert !Owned(s.desc[Slot(t, |s.desc|)]);
    }
    match s.dma
    case HasControl(status, control) => assert status * s.marks == s.marks;
    case _ =>
  }

  lemma CallKeepsValid(s: Ring, len: nat, buf: nat)
    requires Valid(s)
    ensures Valid(CallStep(s, len, buf))
  {
    var s' := CallStep(s, len, buf);
    if s.cpu.Idle? {
      RingFullTest(s);
      assert s'.replies != s.replies ==> s'.replies[..|s'.replies| - 1] == s.replies;
    }
    assert OwnedRun(s');
  }

  /** The OWN test under the cursor succeeds exactly when the ring holds n unsent frames. */
  lemma RingFullTest(s: Ring)
    requires Valid(s) && s.cpu.Idle?
    ensures Owned(s.desc[s.toSet]) <==> |s.accepted| == |s.wire| + |s.desc|
  {
    var n, h := |s.desc|, |s.accepted|;
    if h < |s.wire| + n {
      assert !Owned(s.desc[Slot(h, n)]);
    } else {
      assert Slot(|s.wire| + n, n) == Slot(|s.wire|, n);
      assert Holds(s.desc[Slot(|s.wire|, n)], s.accepted[|s.wire|], s.marks);
    }
  }

  lemma StepKeepsValid(s: Ring, a: Action)
    requires Valid(s)
    ensures Valid(Step(s, a))
  {
    match a
    case Call(len, buf) => CallKeepsValid(s, len, buf);
    case DmaMove(writeBack) =>
      if s.dma.Sending? { DmaReturnsDescriptor(s, writeBack); } else { DmaFetchKeepsValid(s, writeBack); }
    case Store =>
      if s.cpu.Advance? {
        AdvanceKeepsValid(s);
      } else if HandingOver(s.cpu) {
        WakeKeepsValid(s);
      } else if s.cpu.StoreOwn? {
        HandOverKeepsValid(s);
      } else if !s.cpu.Idle? {
        FillKeepsValid(s);
      }
  }

  // ---- Whole runs ----

  /** The ring as DMATxDescChainInit leaves it: descriptor i chains to i + 1 and the last one to the first. */
  predicate Chained(desc: seq<Descriptor>) {
    && |desc| > 0
    && forall i | 0 <= i < |desc| ::
         desc[i].status == {TCH, IC} && desc[i].next == if i + 1 < |desc| then i + 1 else 0
  }

  predicate Start(s: Ring) {
    && Chained(s.desc)
    && s == Ring(s.desc, 0, Idle, 0, Polling, s.marks, [], [], [])
    && OWN !in s.marks
  }

  lemma StartIsValid(s: Ring)
    requires Start(s)
    ensures Valid(s)
  {
    assert forall k: nat | k < |s.desc| :: s.desc[Slot(k, |s.desc|)].status == {TCH, IC};
  }

  lemma {:induction false} RunKeepsValid(s: Ring, schedule: seq<Action>)
    requires Valid(s)
    ensures Valid(Run(s, schedule)) && |Run(s, schedule).desc| == |s.desc|
    decreases |schedule|
  {
    if schedule == [] {
    } else {
      StepKeepsValid(s, schedule[0]);
      StepKeepsShape(s, schedule[0]);
      RunKeepsValid(Step(s, schedule[0]), schedule[1..]);
    }
  }

  /** Main result, for a ring of any size and any interleaving: what has gone out is the beginning of the
      sequence of frames whose send call succeeded (plus at most the frame of the call now returning),
      each once and in order, and never more than n of them are still inside. */
  lemma SentOnceInOrder(s: Ring, schedule: seq<Action>)
    requires Start(s)
    ensures
      var r := Run(s, schedule);
      && r.wire <= r.accepted
      && 0 <= Returned(r)
      && |r.accepted| <= |r.wire| + |s.desc|
      && Sent(r.replies) == r.accepted[..Returned(r)]
      && (r.dma.Sending? ==> |r.wire| < |r.accepted| && r.dma.frame == r.accepted[|r.wire|])
  {
    StartIsValid(s);
    RunKeepsValid(s, schedule);
  }

  // ---- Refinement of a bounded FIFO ----

  datatype Fifo = Fifo(capacity: nat, queue: seq<Frame>, out: seq<Frame>)

  datatype Move = Nothing | Put(frame: Frame) | Take

  predicate Enabled(f: Fifo, m: Move) {
    match m
    case Nothing => true
    case Put(_) => |f.queue| < f.capacity
    case Take => f.queue != []
  }

  function Apply(f: Fifo, m: Move): Fifo
    requires Enabled(f, m)
  {
    match m
    case Nothing => f
    case Put(frame) => f.(queue := f.queue + [frame])
    case Take => f.(queue := f.queue[1..], out := f.out + [f.queue[0]])
  }

  function View(s: Ring): Fifo
    requires |s.wire| <= |s.accepted|
  {
    Fifo(|s.desc|, s.accepted[|s.wire|..], s.wire)
  }

  /** Only two of the memory accesses are visible: the OWN store and the DMA engine's write-back. */
  function MoveOf(s: Ring, a: Action): Move {
    if a.Store? && s.cpu.StoreOwn? then Put(FrameOf(s.cpu.len, s.cpu.buf, s.marks))
    else if a.DmaMove? && s.dma.Sending? then Take
    else Nothing
  }

  /** Every step of the ring is a step of the bounded FIFO, or invisible to it. */
  lemma RefinesFifo(s: Ring, a: Action)
    requires Valid(s)
    ensures
      var s' := Step(s, a);
      && |s'.wire| <= |s'.accepted|
      && Enabled(View(s), MoveOf(s, a))
      && View(s') == Apply(View(s), MoveOf(s, a))
  {
    if a.Store? && s.cpu.StoreOwn? {
      PutRefines(s);
    } else if a.DmaMove? && s.dma.Sending? {
      TakeRefines(s, a.writeBack);
    }
  }

  lemma PutRefines(s: Ring)
    requires Counted(s) && s.cpu.StoreOwn?
    ensures
      var f := FrameOf(s.cpu.len, s.cpu.buf, s.marks);
      |View(s).queue| < |s.desc| && View(SendStep(s)) == View(s).(queue := View(s).queue + [f])
  {
    var f := FrameOf(s.cpu.len, s.cpu.buf, s.marks);
    assert (s.accepted + [f])[|s.wire|..] == s.accepted[|s.wire|..] + [f];
  }

  lemma TakeRefines(s: Ring, writeBack: Bits)
    requires Counted(s) && s.dma.Sending? && |s.wire| < |s.accepted| && s.dma.frame == s.accepted[|s.wire|]
    ensures
      var q := View(s).queue;
      View(DmaStep(s, writeBack)) == View(s).(queue := q[1..], out := s.wire + [q[0]])
  {
    assert s.accepted[|s.wire|..][1..] == s.accepted[|s.wire| + 1..];
  }

  /** A send call is refused exactly when the FIFO is full. */
  lemma RefusedIffFull(s: Ring, len: nat, buf: nat)
    requires Valid(s) && s.cpu.Idle?
    ensures
      var s' := CallStep(s, len, buf);
      && (s'.cpu.Idle? <==> |View(s).queue| == View(s).capacity)
      && s'.replies == s.replies + (if s'.cpu.Idle? then [Reply(FrameOf(len, buf, s.marks), false)] else [])
      && View(s') == View(s)
  {
    RingFullTest(s);
  }

  // ---- No lost wake-up ----

  /** DMA steps still needed to send everything queued. */
  function Work(s: Ring): int {
    var p := |s.accepted| - |s.wire|;
    match s.dma
    case Polling => 4 * p
    case HasStatus(_) => 4 * p - 1
    case HasControl(_, _) => 4 * p - 2
    case Sending(_) => 4 * p - 3
    case Suspended => 0
  }

  function DmaMoves(writeBacks: seq<Bits>): seq<Action> {
    if writeBacks == [] then [] else [DmaMove(writeBacks[0])] + DmaMoves(writeBacks[1..])
  }

  lemma DmaStepWorks(s: Ring, writeBack: Bits)
    requires Valid(s) && s.cpu.Idle?
    ensures Work(s) >= 0 && (Work(s) == 0 ==> s.wire == s.accepted)
    ensures Work(DmaStep(s, writeBack)) == if Work(s) > 0 then Work(s) - 1 else 0
    ensures DmaStep(s, writeBack).accepted == s.accepted
  {
    var t, n := |s.wire|, |s.desc|;
    if t < |s.accepted| {
      assert Holds(s.desc[Slot(t, n)], s.accepted[t], s.marks);
    } else {
      assert !Owned(s.desc[Slot(t, n)]);
    }
  }

  /** Once no send call is in progress the engine, left alone, sends every accepted frame: it is never
      asleep with a frame queued. */
  lemma {:induction false} EverythingGoesOut(s: Ring, writeBacks: seq<Bits>)
    requires Valid(s) && s.cpu.Idle? && |writeBacks| >= Work(s)
    ensures Run(s, DmaMoves(writeBacks)).wire == s.accepted
    decreases |writeBacks|
  {
    if writeBacks == [] {
      DmaStepWorks(s, {});
    } else {
      var a, s' := DmaMove(writeBacks[0]), DmaStep(s, writeBacks[0]);
      DmaStepWorks(s, writeBacks[0]);
      StepKeepsValid(s, a);
      EverythingGoesOut(s', writeBacks[1..]);
      assert DmaMoves(writeBacks)[1..] == DmaMoves(writeBacks[1..]);
    }
  }

  // ---- The driver ----

  class TxDriver {
    const table: array<Descriptor>
    const marks: Bits
    var toSet: nat                       // DMATxDescToSet
    var cur: nat                         // the DMA engine's descriptor pointer
    var dma: Dma
    ghost var cpu: Cpu
    ghost var accepted: seq<Frame>
    ghost var wire: seq<Frame>
    ghost var replies: seq<Reply>

    ghost function State(): Ring
      reads this, table
    {
      Ring(table[..], toSet, cpu, cur, dma, marks, accepted, wire, replies)
    }

    /** DMATxDescChainInit over n descriptors with packet buffers from address `buffers` on; both cursors, the
        driver's and the one in DMATDLAR, are at the first descriptor. */
    constructor (n: nat, buffers: nat, hardwareChecksum: bool)
      requires n > 0
      ensures Start(State()) && Valid(State()) && fresh(table) && table.Length == n
      ensures marks == (if hardwareChecksum then {29, 28, 23, 22} else {29, 28}) && toSet == cur == 0
      ensures forall k: nat | k < n :: table[k].status == {30, 20} && table[k].buffer == buffers + k * 1524
    {
      table := new Descriptor[n](_ => Descriptor({}, 0, 0, 0));
      marks := Marks(hardwareChecksum);
      toSet, cur, dma := 0, 0, Polling;
      cpu, accepted, wire, replies := Idle, [], [], [];
      new;
      for i := 0 to n
        invariant forall k | 0 <= k < i ::
          table[k].status == {TCH, IC} && table[k].next == if k + 1 < n then k + 1 else 0
        invariant forall k | 0 <= k < i :: table[k].buffer == buffers + k * MAX_PACKET_SIZE
        invariant toSet == cur == 0 && dma == Polling && cpu == Idle && accepted == wire == [] && replies == []
      {
        table[i] := table[i].(
          status := {TCH, IC}, buffer := buffers + i * MAX_PACKET_SIZE, next := if i < n - 1 then i + 1 else 0);
      }
      StartIsValid(State());
    }

    /** One step of the DMA engine. */
    method Engine(writeBack: Bits)
      requires Valid(State())
      modifies this, table
      ensures State() == DmaStep(old(State()), writeBack) && Valid(State())
    {
      DmaStepIsValid(State(), writeBack);
      match dma {
        case Polling => dma := if OWN in table[cur].status then HasStatus(table[cur].status) else Suspended;
        case HasStatus(status) => dma := HasControl(status, table[cur].control);
        case HasControl(status, control) =>
          dma := Sending(Frame(LengthField(control), table[cur].buffer, status * marks));
        case Sending(frame) =>
          table[cur] := table[cur].(status := writeBack - {OWN});
          cur, dma, wire := table[cur].next, Polling, wire + [frame];
        case Suspended =>
      }
    }

    /** Any number of DMA steps between two accesses of the sending task. */
    method Interference()
      requires Valid(State())
      modifies this, table
      ensures Valid(State())
      ensures cpu == old(cpu) && accepted == old(accepted) && replies == old(replies) && old(wire) <= wire
    {
      var steps: nat := *;
      while steps > 0
        invariant Valid(State())
        invariant cpu == old(cpu) && accepted == old(accepted) && replies == old(replies) && old(wire) <= wire
      {
        var writeBack: Bits := *;
        Engine(writeBack);
        steps := steps - 1;
      }
    }

    method StoreControl(len: nat, ghost buf: nat)
      requires Valid(State()) && cpu == StoreLength(len, buf)
      modifies this, table
      ensures Valid(State()) && cpu == StoreBuffer(len, buf)
      ensures accepted == old(accepted) && replies == old(replies) && old(wire) <= wire
    {
      ghost var s := State();
      StepKeepsValid(s, Store);
      table[toSet] := table[toSet].(control := LengthField(len));
      cpu := StoreBuffer(len, buf);
      assert State() == SendStep(s);
      Interference();
    }

    method StoreAddress(ghost len: nat, buf: nat)
      requires Valid(State()) && cpu == StoreBuffer(len, buf)
      modifies this, table
      ensures Valid(State()) && cpu == LoadForMarks(len, buf)
      ensures accepted == old(accepted) && replies == old(replies) && old(wire) <= wire
    {
      ghost var s := State();
      StepKeepsValid(s, Store);
      table[toSet] := table[toSet].(buffer := buf);
      cpu := LoadForMarks(len, buf);
      assert State() == SendStep(s);
      Interference();
    }

    /** Status |= LS | FS (| CIC): a load and a store. */
    method OrMarks(ghost len: nat, ghost buf: nat)
      requires Valid(State()) && cpu == LoadForMarks(len, buf)
      modifies this, table
      ensures Valid(State()) && cpu == LoadForOwn(len, buf)
      ensures accepted == old(accepted) && replies == old(replies) && old(wire) <= wire
    {
      StepKeepsValid(State(), Store);
      var loaded := table[toSet].status;
      cpu := StoreMarks(len, buf, loaded);
      Interference();
      ghost var s := State();
      StepKeepsValid(s, Store);
      table[toSet] := table[toSet].(status := loaded + marks);
      cpu := LoadForOwn(len, buf);
      assert State() == SendStep(s);
      Interference();
    }

    method LoadStatus(ghost len: nat, ghost buf: nat) returns (loaded: Bits)
      requires Valid(State()) && cpu == LoadForOwn(len, buf)
      modifies this, table
      ensures Valid(State()) && cpu == StoreOwn(len, buf, loaded)
      ensures accepted == old(accepted) && replies == old(replies) && old(wire) <= wire
    {
      StepKeepsValid(State(), Store);
      loaded := table[toSet].status;
      cpu := StoreOwn(len, buf, loaded);
      Interference();
    }

    /** Status |= OWN: the hand-over happens at the store. */
    method OrOwn(ghost len: nat, ghost buf: nat)
      requires Valid(State()) && cpu == LoadForOwn(len, buf)
      modifies this, table
      ensures Valid(State()) && cpu == ClearUnavailable
      ensures accepted == old(accepted) + [FrameOf(len, buf, marks)]
      ensures replies == old(replies) && old(wire) <= wire
    {
      var loaded := LoadStatus(len, buf);
      StoreOwnBit(len, buf, loaded);
      Interference();
    }

    method StoreOwnBit(ghost len: nat, ghost buf: nat, loaded: Bits)
      requires Valid(State()) && cpu == StoreOwn(len, buf, loaded)
      modifies this, table
      ensures Valid(State()) && cpu == ClearUnavailable
      ensures accepted == old(accepted) + [FrameOf(len, buf, marks)]
      ensures replies == old(replies) && wire == old(wire)
    {
      ghost var s := State();
      StepKeepsValid(s, Store);
      table[toSet] := table[toSet].(status := loaded + {OWN});
      accepted := accepted + [FrameOf(len, buf, marks)];
      cpu := ClearUnavailable;
      assert State() == SendStep(s);
    }

    /** The DMASR write. */
    method ClearFlag()
      requires Valid(State()) && cpu == ClearUnavailable
      modifies this, table
      ensures Valid(State()) && cpu == DemandPoll
      ensures accepted == old(accepted) && replies == old(replies) && old(wire) <= wire
    {
      StepKeepsValid(State(), Store);
      cpu := DemandPoll;
      Interference();
    }

    /** The DMASR and DMATPDR writes that follow the hand-over. */
    method WakeEngine()
      requires Valid(State()) && cpu == ClearUnavailable
      modifies this, table
      ensures Valid(State()) && cpu == Advance
      ensures accepted == old(accepted) && replies == old(replies) && old(wire) <= wire
    {
      ClearFlag();
      ghost var s := State();
      StepKeepsValid(s, Store);
      if dma.Suspended? { dma := Polling; }
      cpu := Advance;
      assert State() == SendStep(s);
      Interference();
    }

    method AdvanceCursor()
      requires Valid(State()) && cpu == Advance
      modifies this
      ensures Valid(State()) && cpu == Idle && |accepted| > 0
      ensures accepted == old(accepted) && wire == old(wire)
      ensures replies == old(replies) + [Reply(accepted[|accepted| - 1], true)]
    {
      ghost var s := State();
      StepKeepsValid(s, Store);
      toSet := table[toSet].next;
      replies := replies + [Reply(accepted[|accepted| - 1], true)];
      cpu := Idle;
      assert State() == SendStep(s);
    }

    /** The OWN test; a refusal ends the call. */
    method TestOwn(len: nat, buf: nat) returns (owned: bool)
      requires Valid(State()) && cpu == Idle
      modifies this, table
      ensures Valid(State()) && accepted == old(accepted) && old(wire) <= wire
      ensures owned <==> |old(accepted)| == |old(wire)| + table.Length
      ensures owned ==> cpu == Idle && replies == old(replies) + [Reply(FrameOf(len, buf, marks), false)]
      ensures owned ==> wire == old(wire) && unchanged(table)
      ensures !owned ==> cpu == StoreLength(len, buf) && replies == old(replies)
    {
      ghost var s := State();
      RingFullTest(s);
      StepKeepsValid(s, Call(len, buf));
      owned := OWN in table[toSet].status;
      if owned {
        replies := replies + [Reply(FrameOf(len, buf, marks), false)];
        assert State() == CallStep(s, len, buf);
      } else {
        cpu := StoreLength(len, buf);
        assert State() == CallStep(s, len, buf);
        Interference();
      }
    }

    /** ETH_TxPktChainMode, with the DMA engine running between any two accesses.  ETH_ERROR is returned
        exactly when n frames were unsent at the OWN test, and then nothing has changed; otherwise the
        frame joins the queue as its last element, with the 13 low bits of the length. */
    method TxPktChainMode(len: nat, buf: nat) returns (ok: bool)
      requires Valid(State()) && cpu == Idle
      modifies this, table
      ensures Valid(State()) && cpu == Idle
      ensures ok <==> |old(accepted)| < |old(wire)| + table.Length
      ensures accepted == old(accepted) + if ok then [Frame(len % 8192, buf, marks)] else []
      ensures ok && len < 8192 ==> accepted == old(accepted) + [Frame(len, buf, marks)]
      ensures replies == old(replies) + [Reply(Frame(len % 8192, buf, marks), ok)]
      ensures !ok ==> unchanged(table) && wire == old(wire)
      ensures old(wire) <= wire
    {
      assert |accepted| <= |wire| + table.Length;
      var owned := TestOwn(len, buf);
      if owned {
        FrameInThirteenBits(len, buf, marks);
        return false;
      }
      FillAndHandOver(len, buf);
      FrameInThirteenBits(len, buf, marks);
      ok := true;
    }

    /** Everything after the OWN test. */
    method FillAndHandOver(len: nat, buf: nat)
      requires Valid(State()) && cpu == StoreLength(len, buf)
      modifies this, table
      ensures Valid(State()) && cpu == Idle
      ensures accepted == old(accepted) + [FrameOf(len, buf, marks)]
      ensures replies == old(replies) + [Reply(FrameOf(len, buf, marks), true)] && old(wire) <= wire
    {
      Fill(len, buf);
      OrOwn(len, buf);
      WakeEngine();
      AdvanceCursor();
    }

    /** The three stores before the hand-over. */
    method Fill(len: nat, buf: nat)
      requires Valid(State()) && cpu == StoreLength(len, buf)
      modifies this, table
      ensures Valid(State()) && cpu == LoadForOwn(len, buf)
      ensures accepted == old(accepted) && replies == old(replies) && old(wire) <= wire
    {
      StoreControl(len, buf);
      StoreAddress(len, buf);
      OrMarks(len, buf);
    }
  }

  lemma FrameInThirteenBits(len: nat, buf: nat, marks: Bits)
    ensures FrameOf(len, buf, marks) == Frame(len % 8192, buf, marks)
    ensures len < 8192 ==> FrameOf(len, buf, marks) == Frame(len, buf, marks)
  {
  }

  lemma DmaStepIsValid(s: Ring, writeBack: Bits)
    requires Valid(s)
    ensures Valid(DmaStep(s, writeBack))
  {
    StepKeepsValid(s, DmaMove(writeBack));
  }
}
