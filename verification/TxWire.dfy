/** From the arguments of the send calls to the frames on the wire. */
module TxWire {
  import opened Words
  import opened TxRing

  /** The arguments of a send call. */
  datatype Request = Request(len: nat, buf: nat)

  /** The frames the requests ask for: the length in 13 bits, the buffer, and the marks of the driver. */
  function Wanted(requests: seq<Request>, marks: Bits): seq<Frame> {
    if requests == [] then []
    else [Frame(requests[0].len % 8192, requests[0].buf, marks)] + Wanted(requests[1..], marks)
  }

  lemma {:induction false} WantedAt(requests: seq<Request>, marks: Bits, k: nat)
    requires k < |requests|
    ensures |Wanted(requests, marks)| == |requests|
    ensures Wanted(requests, marks)[k] == Frame(requests[k].len % 8192, requests[k].buf, marks)
  {
    if |requests| == 1 {
    } else {
      WantedAt(requests[1..], marks, if k == 0 then 0 else k - 1);
    }
  }

  lemma WantedAfterOne(first: seq<Request>, rest: seq<Request>, marks: Bits)
    requires |first| <= 1
    ensures Wanted(first + rest, marks) == Wanted(first, marks) + Wanted(rest, marks)
  {
    if first == [] {
      assert first + rest == rest;
    } else {
      assert (first + rest)[1..] == rest && Wanted(first[1..], marks) == [];
    }
  }

  /** The request a step takes on: a call that finds bit 31 of the descriptor under the cursor clear. */
  function Taken(s: Ring, a: Action): seq<Request>
    requires Shape(s)
  {
    if a.Call? && s.cpu.Idle? && 31 !in s.desc[s.toSet].status then [Request(a.len, a.buf)] else []
  }

  /** The requests taken on in a run, oldest first. */
  function Requests(s: Ring, schedule: seq<Action>): seq<Request>
    requires Shape(s)
    decreases |schedule|
  {
    if schedule == [] then []
    else
      StepKeepsShape(s, schedule[0]);
      Taken(s, schedule[0]) + Requests(Step(s, schedule[0]), schedule[1..])
  }

  /** The request of the call in progress, until its OWN store. */
  function Pending(c: Cpu): seq<Request> {
    match c
    case StoreLength(len, buf) => [Request(len, buf)]
    case StoreBuffer(len, buf) => [Request(len, buf)]
    case LoadForMarks(len, buf) => [Request(len, buf)]
    case StoreMarks(len, buf, _) => [Request(len, buf)]
    case LoadForOwn(len, buf) => [Request(len, buf)]
    case StoreOwn(len, buf, _) => [Request(len, buf)]
    case _ => []
  }

  /** Everything accepted, and what the call in progress will add. */
  function Committed(s: Ring): seq<Frame> {
    s.accepted + Wanted(Pending(s.cpu), s.marks)
  }

  lemma StepCommits(s: Ring, a: Action)
    requires Shape(s)
    ensures Committed(Step(s, a)) == Committed(s) + Wanted(Taken(s, a), s.marks) && Step(s, a).marks == s.marks
  {
    match a
    case Call(len, buf) =>
    case DmaMove(_) =>
    case Store => StoreCommits(s);
  }

  lemma StoreCommits(s: Ring)
    requires Shape(s)
    ensures Committed(SendStep(s)) == Committed(s) && SendStep(s).marks == s.marks
  {
    if s.cpu.StoreOwn? {
      WantedAt([Request(s.cpu.len, s.cpu.buf)], s.marks, 0);
      FrameInThirteenBits(s.cpu.len, s.cpu.buf, s.marks);
    }
  }

  lemma {:induction false} RunCommits(s: Ring, schedule: seq<Action>)
    requires Shape(s)
    ensures Run(s, schedule).marks == s.marks
    ensures Committed(Run(s, schedule)) == Committed(s) + Wanted(Requests(s, schedule), s.marks)
    decreases |schedule|
  {
    if schedule == [] {
    } else {
      StepKeepsShape(s, schedule[0]);
      StepCommits(s, schedule[0]);
      RunCommits(Step(s, schedule[0]), schedule[1..]);
      FirstTaken(s, schedule);
    }
  }

  lemma FirstTaken(s: Ring, schedule: seq<Action>)
    requires Shape(s) && schedule != [] && Shape(Step(s, schedule[0]))
    ensures
      Wanted(Requests(s, schedule), s.marks)
      == Wanted(Taken(s, schedule[0]), s.marks) + Wanted(Requests(Step(s, schedule[0]), schedule[1..]), s.marks)
  {
    WantedAfterOne(Taken(s, schedule[0]), Requests(Step(s, schedule[0]), schedule[1..]), s.marks);
  }

  /** Main result: for a ring of any size and any interleaving, the k-th frame on the wire has exactly the
      length, the buffer and the marks that the k-th call not refused asked for. */
  lemma WireCarriesRequests(s: Ring, schedule: seq<Action>)
    requires Start(s)
    ensures
      var r, requests := Run(s, schedule), Requests(s, schedule);
      && Committed(r) == Wanted(requests, s.marks)
      && |r.wire| <= |requests|
      && forall k | 0 <= k < |r.wire| ::
           && r.wire[k].buffer == requests[k].buf && r.wire[k].marks == s.marks
           && (requests[k].len < 8192 ==> r.wire[k].length == requests[k].len)
  {
    var r, requests := Run(s, schedule), Requests(s, schedule);
    StartIsValid(s);
    RunCommits(s, schedule);
    SentOnceInOrder(s, schedule);
    PrefixCarries(requests, s.marks, r.wire, Committed(r));
  }

  lemma PrefixCarries(requests: seq<Request>, marks: Bits, wire: seq<Frame>, all: seq<Frame>)
    requires wire <= all && all == Wanted(requests, marks)
    ensures |wire| <= |requests|
    ensures forall k | 0 <= k < |wire| ::
      && wire[k].buffer == requests[k].buf && wire[k].marks == marks
      && (requests[k].len < 8192 ==> wire[k].length == requests[k].len)
  {
    if requests != [] { WantedAt(requests, marks, 0); }
    forall k | 0 <= k < |wire|
      ensures wire[k] == Frame(requests[k].len % 8192, requests[k].buf, marks)
    {
      WantedAt(requests, marks, k);
    }
  }

  /** What the engine finds from the OWN store on. */
  lemma HandedOver(s: Ring)
    requires Valid(s) && s.cpu.StoreOwn?
    ensures
      var d := SendStep(s).desc[s.toSet];
      && 31 in d.status && s.marks <= d.status && 31 !in s.desc[s.toSet].status
      && d.control == s.cpu.len % 8192 && d.buffer == s.cpu.buf
      && SendStep(s).desc == s.desc[s.toSet := d]
  {
    assert !Owned(s.desc[Slot(|s.accepted|, |s.desc|)]);
  }
}
