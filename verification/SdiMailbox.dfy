/** The SDI printf mailbox: `_write` passes text to a debug host through two words, DATA0 and DATA1.  The
    low byte of DATA0 is the number of bytes in the packet; zero means that the mailbox is free. */
module SdiMailbox {
  type Byte = b: nat | b < 256

  /** Four bytes, lowest first, as one 32-bit word. */
  function Word(b0: Byte, b1: Byte, b2: Byte, b3: Byte): nat {
    b0 + 0x100 * (b1 + 0x100 * (b2 + 0x100 * b3))
  }

  function Bytes(w: nat): seq<Byte> {
    var w1 := w / 0x100;
    var w2 := w1 / 0x100;
    [w % 0x100, w1 % 0x100, w2 % 0x100, w2 / 0x100 % 0x100]
  }

  /** Byte k of the packet, or zero past its end. */
  function At(chunk: seq<Byte>, k: nat): Byte {
    if k < |chunk| then chunk[k] else 0
  }

  function Data0(chunk: seq<Byte>): nat
    requires |chunk| <= 7
  {
    Word(|chunk|, At(chunk, 0), At(chunk, 1), At(chunk, 2))
  }

  function Data1(chunk: seq<Byte>): nat {
    Word(At(chunk, 3), At(chunk, 4), At(chunk, 5), At(chunk, 6))
  }

  /** What the host makes of the two words. */
  function Decode(data0: nat, data1: nat): seq<Byte> {
    var all := Bytes(data0)[1..] + Bytes(data1);
    var n := Bytes(data0)[0];
    if n <= 7 then all[..n] else all
  }

  /** The next packet of what is left to send. */
  function Chunk(rest: seq<Byte>): seq<Byte> {
    if |rest| > 7 then rest[..7] else rest
  }

  /** The packets that `count` bytes are sent in. */
  function Packets(count: nat): nat {
    (count + 6) / 7
  }

  lemma WordBytes(b0: Byte, b1: Byte, b2: Byte, b3: Byte)
    ensures Bytes(Word(b0, b1, b2, b3)) == [b0, b1, b2, b3]
    ensures Word(b0, b1, b2, b3) < 0x1_0000_0000
  {
    SplitByte(b0, b1 + 0x100 * (b2 + 0x100 * b3));
    SplitByte(b1, b2 + 0x100 * b3);
    SplitByte(b2, b3);
  }

  lemma SplitByte(b: Byte, rest: nat)
    ensures (b + 0x100 * rest) % 0x100 == b && (b + 0x100 * rest) / 0x100 == rest
  {
  }

  /** The host gets back exactly the packet, and a packet never looks like a free mailbox. */
  lemma PacketRoundTrip(chunk: seq<Byte>)
    requires 1 <= |chunk| <= 7
    ensures Decode(Data0(chunk), Data1(chunk)) == chunk
    ensures Data0(chunk) != 0
  {
    WordBytes(|chunk|, At(chunk, 0), At(chunk, 1), At(chunk, 2));
    WordBytes(At(chunk, 3), At(chunk, 4), At(chunk, 5), At(chunk, 6));
  }

  /** Where the bytes of a packet lie: their number in the low byte of DATA0, then three bytes, and four more in
      DATA1, with zeros past the end. */
  lemma PacketLayout(chunk: seq<Byte>)
    requires 1 <= |chunk| <= 7
    ensures Data0(chunk) == |chunk| + 0x100 * (chunk[0] as int)
                            + 0x1_0000 * (if |chunk| > 1 then chunk[1] as int else 0)
                            + 0x100_0000 * (if |chunk| > 2 then chunk[2] as int else 0)
    ensures Data1(chunk) == (if |chunk| > 3 then chunk[3] as int else 0)
                            + 0x100 * (if |chunk| > 4 then chunk[4] as int else 0)
                            + 0x1_0000 * (if |chunk| > 5 then chunk[5] as int else 0)
                            + 0x100_0000 * (if |chunk| > 6 then chunk[6] as int else 0)
    ensures Data0(chunk) % 0x100 == |chunk| && Data0(chunk) < 0x1_0000_0000 && Data1(chunk) < 0x1_0000_0000
  {
    SplitByte(|chunk|, At(chunk, 0) + 0x100 * (At(chunk, 1) + 0x100 * At(chunk, 2)));
  }

  // ---- The two parties ----

  /** What `_write` does next: poll DATA0, store DATA1, store DATA0, or nothing any more. */
  datatype Writer = Poll | Store1 | Store0 | Done

  /** The host reads DATA0, reads DATA1, and frees the mailbox. */
  datatype Host = Watching | Has0(w0: nat) | Has1(w0: nat, w1: nat)

  datatype Mailbox = Mailbox(
    data0: nat, data1: nat,
    writer: Writer, i: nat, left: nat,   // the locals i and writeSize of `_write`
    host: Host,
    out: seq<Byte>,                      // what the host has printed
    packets: nat)                        // packets stored so far

  function WriterStep(s: Mailbox, buf: seq<Byte>): Mailbox {
    var chunk := if s.i <= |buf| then Chunk(buf[s.i..]) else [];
    match s.writer
    case Poll => if s.data0 == 0 then s.(writer := Store1) else s
    case Store1 => s.(data1 := Data1(chunk), writer := Store0)
    case Store0 =>
      var s' := s.(data0 := Data0(chunk), packets := s.packets + 1);
      if s.left > 7 then s'.(i := s.i + 7, left := s.left - 7, writer := Poll)
      else s'.(left := 0, writer := Done)
    case Done => s
  }

  function HostStep(s: Mailbox): Mailbox {
    match s.host
    case Watching => if s.data0 != 0 then s.(host := Has0(s.data0)) else s
    case Has0(w0) => s.(host := Has1(w0, s.data1))
    case Has1(w0, w1) => s.(data0 := 0, host := Watching, out := s.out + Decode(w0, w1))
  }

  datatype Actor = TheWriter | TheHost

  function Step(s: Mailbox, buf: seq<Byte>, a: Actor): Mailbox {
    match a
    case TheWriter => WriterStep(s, buf)
    case TheHost => HostStep(s)
  }

  function Run(s: Mailbox, buf: seq<Byte>, schedule: seq<Actor>): Mailbox
    decreases |schedule|
  {
    if schedule == [] then s else Run(Step(s, buf, schedule[0]), buf, schedule[1..])
  }

  // ---- Safety ----

  /** The packet in the mailbox that the host has not printed yet. */
  function Unread(s: Mailbox): seq<Byte> {
    if s.data0 == 0 then [] else Decode(s.data0, s.data1)
  }

  /** What the host has latched is still what the mailbox holds. */
  predicate HostInStep(s: Mailbox) {
    match s.host
    case Watching => true
    case Has0(w0) => w0 == s.data0 != 0
    case Has1(w0, w1) => w0 == s.data0 != 0 && w1 == s.data1
  }

  /** The bytes of buf that have been put into the mailbox. */
  function Written(s: Mailbox, buf: seq<Byte>): nat {
    if s.writer.Done? then |buf| else s.i
  }

  /** `before` is the text of earlier calls; `p0` the packets they took. */
  predicate Valid(s: Mailbox, buf: seq<Byte>, before: seq<Byte>, p0: nat) {
    && |buf| >= 1
    && HostInStep(s)
    && (if s.writer.Done? then s.left == 0 && s.packets == p0 + Packets(|buf|)
        else s.left >= 1 && s.i + s.left == |buf| && s.i == 7 * (s.packets - p0))
    && s.out + Unread(s) == before + buf[..Written(s, buf)]
    && (s.writer.Store1? || s.writer.Store0? ==> s.data0 == 0)
    && (s.writer.Store0? ==> s.data1 == Data1(Chunk(buf[s.i..])))
  }

  /** The text after the store of DATA0: one more packet of it has been written. */
  lemma PacketJoinsText(buf: seq<Byte>, before: seq<Byte>, i: nat, j: nat)
    requires i <= j <= |buf| && j == i + |Chunk(buf[i..])|
    ensures before + buf[..i] + Chunk(buf[i..]) == before + buf[..j]
  {
  }

  lemma WriterKeepsValid(s: Mailbox, buf: seq<Byte>, before: seq<Byte>, p0: nat)
    requires Valid(s, buf, before, p0)
    ensures Valid(WriterStep(s, buf), buf, before, p0)
  {
    if s.writer.Store0? { HandOverKeepsValid(s, buf, before, p0); }
  }

  lemma HandOverKeepsValid(s: Mailbox, buf: seq<Byte>, before: seq<Byte>, p0: nat)
    requires Valid(s, buf, before, p0) && s.writer.Store0?
    ensures Valid(WriterStep(s, buf), buf, before, p0)
  {
    PacketRoundTrip(Chunk(buf[s.i..]));
    PacketJoinsText(buf, before, s.i, Written(WriterStep(s, buf), buf));
    assert s.out + [] == s.out;
  }

  lemma HostKeepsValid(s: Mailbox, buf: seq<Byte>, before: seq<Byte>, p0: nat)
    requires Valid(s, buf, before, p0)
    ensures Valid(HostStep(s), buf, before, p0)
  {
    if s.host.Has1? {
      assert HostStep(s).out + [] == s.out + Unread(s);
    }
  }

  lemma {:induction false} RunKeepsValid(s: Mailbox, buf: seq<Byte>, before: seq<Byte>, p0: nat, schedule: seq<Actor>)
    requires Valid(s, buf, before, p0)
    ensures Valid(Run(s, buf, schedule), buf, before, p0)
    decreases |schedule|
  {
    if schedule == [] {
    } else {
      if schedule[0].TheWriter? {
        WriterKeepsValid(s, buf, before, p0);
      } else {
        HostKeepsValid(s, buf, before, p0);
      }
      RunKeepsValid(Step(s, buf, schedule[0]), buf, before, p0, schedule[1..]);
    }
  }

  /** `_write` is called on a non-empty buffer, possibly while the last packet of an earlier call is unread. */
  predicate CallBegins(s: Mailbox, buf: seq<Byte>) {
    |buf| >= 1 && HostInStep(s) && s.writer == Poll && s.i == 0 && s.left == |buf|
  }

  /** Main safety result, for any interleaving: no byte is lost, repeated or reordered; no packet is
      overwritten before the host has printed it; and a finished call has used ceil(size / 7) packets. */
  lemma NothingLost(s: Mailbox, buf: seq<Byte>, schedule: seq<Actor>)
    requires CallBegins(s, buf)
    ensures
      var r := Run(s, buf, schedule);
      && r.out <= s.out + Unread(s) + buf
      && (r.writer.Store1? || r.writer.Store0? ==> r.data0 == 0 && r.host.Watching?)
      && (r.writer.Done? ==> r.out + Unread(r) == s.out + Unread(s) + buf)
      && (r.writer.Done? ==> r.packets == s.packets + Packets(|buf|))
      && (r.data0 != 0 && !r.writer.Done? ==> WriterStep(r, buf) == r)
  {
    var before := s.out + Unread(s);
    assert before + buf[..0] == before;
    RunKeepsValid(s, buf, before, s.packets, schedule);
    var r := Run(s, buf, schedule);
    var w := Written(r, buf);
    assert before + buf == before + buf[..w] + buf[w..];
    assert r.out <= r.out + Unread(r);
    if r.writer.Done? { assert buf[..w] == buf; }
  }

  // ---- Progress ----

  predicate Finished(s: Mailbox) {
    s.writer.Done? && s.data0 == 0
  }

  /** Accesses still to be made: six for every packet not yet stored, three for the one in the mailbox. */
  function Remaining(s: Mailbox): int {
    6 * Packets(s.left)
    - (match s.writer case Poll => 0 case Store1 => 1 case Store0 => 2 case Done => 0)
    + (if s.data0 == 0 then 0 else match s.host case Watching => 3 case Has0(_) => 2 case Has1(_, _) => 1)
  }

  /** The party whose next access changes something. */
  function Enabled(s: Mailbox): Actor {
    if s.data0 != 0 then TheHost else TheWriter
  }

  /** Every access either is an idle poll or is one of the remaining ones; and until the end, the host
      finds work when the mailbox is full and the writer finds work when it is empty. */
  lemma StepProgress(s: Mailbox, buf: seq<Byte>, before: seq<Byte>, p0: nat, a: Actor)
    requires Valid(s, buf, before, p0)
    ensures Remaining(s) >= 0 && (Remaining(s) == 0 <==> Finished(s))
    ensures
      var s' := Step(s, buf, a);
      if s' == s then a != Enabled(s) || Finished(s) else Remaining(s') == Remaining(s) - 1
  {
    if a.TheWriter? && s.writer.Store0? {
      PacketRoundTrip(Chunk(buf[s.i..]));
    }
  }

  /** A schedule given by its stretches. */
  function Concat(stretches: seq<seq<Actor>>): seq<Actor> {
    if stretches == [] then [] else stretches[0] + Concat(stretches[1..])
  }

  /** Both parties get to run in the stretch. */
  predicate BothRun(stretch: seq<Actor>) {
    TheWriter in stretch && TheHost in stretch
  }

  lemma {:induction false} RunSplit(s: Mailbox, buf: seq<Byte>, left: seq<Actor>, right: seq<Actor>)
    ensures Run(s, buf, left + right) == Run(Run(s, buf, left), buf, right)
    decreases |left|
  {
    if left == [] {
      assert left + right == right;
    } else {
      assert (left + right)[1..] == left[1..] + right;
      RunSplit(Step(s, buf, left[0]), buf, left[1..], right);
    }
  }

  /** A stretch never undoes progress, and makes some if the enabled party runs in it. */
  lemma {:induction false} StretchProgress(s: Mailbox, buf: seq<Byte>, before: seq<Byte>, p0: nat, stretch: seq<Actor>)
    requires Valid(s, buf, before, p0)
    ensures
      var r := Run(s, buf, stretch);
      && Remaining(r) <= Remaining(s)
      && (Enabled(s) in stretch && !Finished(s) ==> Remaining(r) < Remaining(s))
    decreases |stretch|
  {
    if stretch == [] {
    } else {
      var s' := Step(s, buf, stretch[0]);
      StepProgress(s, buf, before, p0, stretch[0]);
      RunKeepsValid(s, buf, before, p0, [stretch[0]]);
      assert Run(s, buf, [stretch[0]]) == s' by { assert Run(s', buf, []) == s'; }
      StretchProgress(s', buf, before, p0, stretch[1..]);
    }
  }

  lemma RemainingIsZeroAtTheEnd(s: Mailbox, buf: seq<Byte>, before: seq<Byte>, p0: nat)
    requires Valid(s, buf, before, p0)
    ensures Remaining(s) >= 0 && (Remaining(s) == 0 <==> Finished(s))
  {
    StepProgress(s, buf, before, p0, TheHost);
  }

  lemma FairStretch(s: Mailbox, buf: seq<Byte>, before: seq<Byte>, p0: nat, stretch: seq<Actor>)
    requires Valid(s, buf, before, p0) && !Finished(s) && BothRun(stretch)
    ensures Valid(Run(s, buf, stretch), buf, before, p0)
    ensures Remaining(Run(s, buf, stretch)) < Remaining(s)
  {
    StretchProgress(s, buf, before, p0, stretch);
    RunKeepsValid(s, buf, before, p0, stretch);
  }

  /** k fair stretches use up at least k of the remaining accesses. */
  lemma {:induction false} FairProgress(s: Mailbox, buf: seq<Byte>, before: seq<Byte>, p0: nat,
                                        stretches: seq<seq<Actor>>)
    requires Valid(s, buf, before, p0) && forall t | t in stretches :: BothRun(t)
    ensures
      var left := Remaining(Run(s, buf, Concat(stretches)));
      left <= 0 || left <= Remaining(s) - |stretches|
    decreases |stretches|
  {
    RemainingIsZeroAtTheEnd(s, buf, before, p0);
    if stretches == [] || Finished(s) {
      StretchProgress(s, buf, before, p0, Concat(stretches));
    } else {
      FairStretch(s, buf, before, p0, stretches[0]);
      FairProgress(Run(s, buf, stretches[0]), buf, before, p0, stretches[1..]);
      RunSplit(s, buf, stretches[0], Concat(stretches[1..]));
    }
  }

  /** Main liveness result: with a responsive host and a running writer, the call ends and the host has
      printed the whole buffer within six fair stretches a packet. */
  lemma EverythingPrinted(s: Mailbox, buf: seq<Byte>, stretches: seq<seq<Actor>>)
    requires CallBegins(s, buf) && forall t | t in stretches :: BothRun(t)
    requires |stretches| >= 6 * Packets(|buf|) + 3
    ensures
      var r := Run(s, buf, Concat(stretches));
      Finished(r) && r.out == s.out + Unread(s) + buf
  {
    var before, schedule := s.out + Unread(s), Concat(stretches);
    assert before + buf[..0] == before;
    FairProgress(s, buf, before, s.packets, stretches);
    RunKeepsValid(s, buf, before, s.packets, schedule);
    RemainingIsZeroAtTheEnd(Run(s, buf, schedule), buf, before, s.packets);
    NothingLost(s, buf, schedule);
  }

  // ---- `_write` ----

  class SdiPort {
    var data0: nat
    var data1: nat
    var host: Host
    var out: seq<Byte>
    ghost var packets: nat

    ghost function State(writer: Writer, i: nat, left: nat): Mailbox
      reads this
    {
      Mailbox(data0, data1, writer, i, left, host, out, packets)
    }

    ghost predicate Ready()
      reads this
    {
      HostInStep(State(Poll, 0, 0))
    }

    /** Everything passed to `_write` so far. */
    ghost function Text(): seq<Byte>
      reads this
    {
      out + Unread(State(Poll, 0, 0))
    }

    /** SDI_Printf_Enable. */
    constructor ()
      ensures Ready() && Text() == [] && packets == 0
    {
      data0, data1, host, out, packets := 0, 0, Watching, [], 0;
    }

    /** One access of the host. */
    method HostAccess(ghost writer: Writer, ghost i: nat, ghost left: nat)
      modifies this
      ensures State(writer, i, left) == HostStep(old(State(writer, i, left)))
    {
      match host {
        case Watching => if data0 != 0 { host := Has0(data0); }
        case Has0(w0) => host := Has1(w0, data1);
        case Has1(w0, w1) => data0, host, out := 0, Watching, out + Decode(w0, w1);
      }
    }

    /** Any number of host accesses between two accesses of `_write`. */
    method Interference(ghost writer: Writer, ghost i: nat, ghost left: nat, ghost buf: seq<Byte>,
                        ghost before: seq<Byte>, ghost p0: nat)
      requires Valid(State(writer, i, left), buf, before, p0)
      modifies this
      ensures Valid(State(writer, i, left), buf, before, p0)
      ensures packets == old(packets)
    {
      var steps: nat := *;
      while steps > 0
        invariant Valid(State(writer, i, left), buf, before, p0) && packets == old(packets)
      {
        HostKeepsValid(State(writer, i, left), buf, before, p0);
        HostAccess(writer, i, left);
        steps := steps - 1;
      }
    }

    /** The busy-wait on DATA0.  The host is responsive: its next access comes after some number of polls. */
    method AwaitFree(ghost i: nat, ghost left: nat, ghost buf: seq<Byte>, ghost before: seq<Byte>, ghost p0: nat)
      requires Valid(State(Poll, i, left), buf, before, p0)
      modifies this
      ensures Valid(State(Store1, i, left), buf, before, p0) && packets == old(packets)
    {
      var polls: nat := *;
      while data0 != 0
        invariant Valid(State(Poll, i, left), buf, before, p0) && packets == old(packets)
        decreases Remaining(State(Poll, i, left)), polls
      {
        if polls > 0 {
          polls := polls - 1;
        } else {
          StepProgress(State(Poll, i, left), buf, before, p0, TheHost);
          HostKeepsValid(State(Poll, i, left), buf, before, p0);
          HostAccess(Poll, i, left);
          polls := *;
        }
      }
      WriterKeepsValid(State(Poll, i, left), buf, before, p0);
    }

    /** A full packet: seven bytes from position i. */
    method PutFull(buf: seq<Byte>, i: nat, ghost left: nat, ghost before: seq<Byte>, ghost p0: nat)
      requires Valid(State(Store1, i, left), buf, before, p0) && left > 7
      modifies this
      ensures Valid(State(Poll, i + 7, left - 7), buf, before, p0)
    {
      ghost var s := State(Store1, i, left);
      WriterKeepsValid(s, buf, before, p0);
      data1 := Word(buf[i + 3], buf[i + 4], buf[i + 5], buf[i + 6]);
      assert State(Store0, i, left) == WriterStep(s, buf);
      Interference(Store0, i, left, buf, before, p0);
      s := State(Store0, i, left);
      WriterKeepsValid(s, buf, before, p0);
      data0, packets := Word(7, buf[i], buf[i + 1], buf[i + 2]), packets + 1;
      assert State(Poll, i + 7, left - 7) == WriterStep(s, buf);
    }

    /** The last packet: one to seven bytes from position i, the rest of the two words zero. */
    method PutLast(buf: seq<Byte>, i: nat, left: nat, ghost before: seq<Byte>, ghost p0: nat)
      requires Valid(State(Store1, i, left), buf, before, p0) && left <= 7
      modifies this
      ensures Valid(State(Done, i, 0), buf, before, p0)
    {
      ghost var s := State(Store1, i, left);
      WriterKeepsValid(s, buf, before, p0);
      data1 := Word(if left > 3 then buf[i + 3] else 0, if left > 4 then buf[i + 4] else 0,
                    if left > 5 then buf[i + 5] else 0, if left > 6 then buf[i + 6] else 0);
      assert State(Store0, i, left) == WriterStep(s, buf);
      Interference(Store0, i, left, buf, before, p0);
      s := State(Store0, i, left);
      WriterKeepsValid(s, buf, before, p0);
      data0, packets :=
        Word(left, buf[i], if left > 1 then buf[i + 1] else 0, if left > 2 then buf[i + 2] else 0), packets + 1;
      assert State(Done, i, 0) == WriterStep(s, buf);
    }

    /** `_write` on a non-empty buffer: the text is extended by exactly the buffer, in ceil(size / 7) packets. */
    method Write(buf: seq<Byte>) returns (size: nat)
      requires Ready() && |buf| >= 1
      modifies this
      ensures Ready() && size == |buf|
      ensures Text() == old(Text()) + buf
      ensures packets == old(packets) + Packets(|buf|)
    {
      ghost var before, p0 := Text(), packets;
      var i: nat, left: nat := 0, |buf|;
      assert before + buf[..0] == before;
      while left != 0
        invariant left != 0 ==> Valid(State(Poll, i, left), buf, before, p0)
        invariant left == 0 ==> Valid(State(Done, i, 0), buf, before, p0)
        decreases left
      {
        AwaitFree(i, left, buf, before, p0);
        Interference(Store1, i, left, buf, before, p0);
        if left > 7 {
          PutFull(buf, i, left, before, p0);
          i, left := i + 7, left - 7;
          Interference(Poll, i, left, buf, before, p0);
        } else {
          PutLast(buf, i, left, before, p0);
          left := 0;
          Interference(Done, i, 0, buf, before, p0);
        }
      }
      assert buf[..|buf|] == buf;
      size := |buf|;
    }
  }
}
