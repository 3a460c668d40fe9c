/** The non-blocking relay: the state machine `fsm_driver` shared by proIO/non-blocked/relay.c, proIO/epoll/relay.c,
proIO/poll/relay.c and proIO/non-blocked/relayer/relayer.c. What `read` and `write` answer is chosen by an
adversary: short counts, EAGAIN, end of file and errors. Each direction has its own source and destination. */
module Relay {

  type Byte = b: int | 0 <= b < 256

  datatype Phase = R | W | EX | T

  /** What `strerr` points to. */
  datatype Failed = NoError | ReadError | WriteError

  datatype ReadAnswer = Bytes(bytes: seq<Byte>) | EndOfFile | ReadAgain | ReadFails

  datatype WriteAnswer = Wrote(n: nat) | WriteAgain | WriteFails

  /** The answers waiting for one drive: only the one the machine asks for is used. */
  datatype Answers = Answers(read: ReadAnswer, write: WriteAnswer)

  /** One direction: the fields of `rel_fsm_st`, all bytes read from the source and all bytes written. */
  datatype Machine = Machine(phase: Phase, buf: seq<Byte>, pos: int, len: int, strerr: Failed,
                             input: seq<Byte>, output: seq<Byte>)

  /** read returns at most the buffer size, write at most what it was given. */
  predicate Legal(m: Machine, a: Answers) {
    && (m.phase == R && a.read.Bytes? ==> 0 < |a.read.bytes| <= |m.buf|)
    && (m.phase == W && a.write.Wrote? ==> a.write.n <= m.len)
  }

  /** The bytes read and not yet written are the stretch of the buffer still to be sent; a direction that stopped
  without a write error has delivered everything it read. */
  ghost predicate Sound(m: Machine) {
    match m.phase
    case R => m.output == m.input
    case W =>
      && 0 <= m.pos && 0 < m.len && m.pos + m.len <= |m.buf|
      && m.output + m.buf[m.pos..m.pos + m.len] == m.input
    case _ => m.output <= m.input && (m.strerr != WriteError ==> m.output == m.input)
  }

  /** fsm_driver as a function of the machine and the answers. */
  function Drive(m: Machine, a: Answers): Machine
    requires Legal(m, a) && Sound(m)
  {
    match m.phase
    case R =>
      (match a.read
       case Bytes(bytes) =>
         m.(buf := bytes + m.buf[|bytes|..], len := |bytes|, pos := 0, phase := W, input := m.input + bytes)
       case EndOfFile => m.(len := 0, phase := T)
       case ReadAgain => m.(len := -1)
       case ReadFails => m.(len := -1, strerr := ReadError, phase := EX))
    case W =>
      (match a.write
       case Wrote(n) =>
         m.(pos := m.pos + n, len := m.len - n, phase := if m.len == n then R else W,
            output := m.output + m.buf[m.pos..m.pos + n])
       case WriteAgain => m
       case WriteFails => m.(strerr := WriteError, phase := EX))
    case EX => m.(phase := T)
    case T => m
  }

  lemma DriveKeepsSound(m: Machine, a: Answers)
    requires Legal(m, a) && Sound(m)
    ensures Sound(Drive(m, a)) && |Drive(m, a).buf| == |m.buf|
    ensures m.input <= Drive(m, a).input && m.output <= Drive(m, a).output
  {
    var m' := Drive(m, a);
    if m.phase == R && a.read.Bytes? {
      assert m'.buf[0..|a.read.bytes|] == a.read.bytes;
    } else if m.phase == W && a.write.Wrote? {
      var n := a.write.n;
      assert m.buf[m.pos..m.pos + m.len] == m.buf[m.pos..m.pos + n] + m.buf[m.pos + n..m.pos + m.len];
      if n == m.len { assert m'.output == m'.input; }
    }
  }

  // ----- runs of one direction

  ghost predicate LegalRun(m: Machine, answers: seq<Answers>)
    decreases |answers|
  {
    answers == [] || (Legal(m, answers[0]) && Sound(m) && LegalRun(Drive(m, answers[0]), answers[1..]))
  }

  ghost function RunOf(m: Machine, answers: seq<Answers>): Machine
    requires LegalRun(m, answers)
    decreases |answers|
  {
    if answers == [] then m else RunOf(Drive(m, answers[0]), answers[1..])
  }

  /** For every sequence of answers: what was written is a prefix of what was read, the rest is in the buffer, and
  a direction that ends without a write error has delivered everything. */
  lemma {:induction false} RunKeepsSound(m: Machine, answers: seq<Answers>)
    requires Sound(m) && LegalRun(m, answers)
    ensures var m' := RunOf(m, answers);
            && Sound(m') && m'.output <= m'.input && m.input <= m'.input
            && (m'.phase == T && m'.strerr != WriteError ==> m'.output == m'.input)
    decreases |answers|
  {
    if answers != [] {
      DriveKeepsSound(m, answers[0]);
      RunKeepsSound(Drive(m, answers[0]), answers[1..]);
    }
  }

  // ----- from source to destination

  /** The kernel's side of one drive over a source that holds `src` in all, `off` bytes of which have been read: a read
  gets the bytes that come next, and end of file only when there are none. */
  predicate FedNow(src: seq<Byte>, off: nat, m: Machine, a: Answers) {
    && (m.phase == R && a.read.Bytes? ==>
          off + |a.read.bytes| <= |src| && a.read.bytes == src[off..off + |a.read.bytes|])
    && (m.phase == R && a.read.EndOfFile? ==> off == |src|)
  }

  function Offset(off: nat, m: Machine, a: Answers): nat {
    if m.phase == R && a.read.Bytes? then off + |a.read.bytes| else off
  }

  ghost predicate Fed(src: seq<Byte>, off: nat, m: Machine, answers: seq<Answers>)
    requires LegalRun(m, answers)
    decreases |answers|
  {
    answers == []
    || (FedNow(src, off, m, answers[0]) && Fed(src, Offset(off, m, answers[0]), Drive(m, answers[0]), answers[1..]))
  }

  ghost function OffsetAfter(off: nat, m: Machine, answers: seq<Answers>): nat
    requires LegalRun(m, answers)
    decreases |answers|
  {
    if answers == [] then off
    else OffsetAfter(Offset(off, m, answers[0]), Drive(m, answers[0]), answers[1..])
  }

  /** What the destination has got: every write call offers buf[pos..pos+len), and its answer says how many of these
  bytes were taken. */
  ghost function Sunk(m: Machine, answers: seq<Answers>): seq<Byte>
    requires LegalRun(m, answers)
    decreases |answers|
  {
    if answers == [] then []
    else
      (if m.phase == W && answers[0].write.Wrote? then m.buf[m.pos..m.pos + answers[0].write.n] else [])
      + Sunk(Drive(m, answers[0]), answers[1..])
  }

  /** A machine about to read that has transferred nothing and met no error; the rest is unset memory. */
  predicate NewMachine(m: Machine) {
    m.phase == R && m.input == m.output == [] && m.strerr == NoError
  }

  /** Where the machine stands relative to its source: it has stopped without an error only at the end. */
  ghost predicate OnCourse(src: seq<Byte>, off: nat, m: Machine) {
    && Sound(m) && off <= |src| && m.input == src[..off]
    && (m.phase == EX ==> m.strerr != NoError)
    && (m.phase == T && m.strerr == NoError ==> off == |src|)
  }

  lemma DriveOnCourse(src: seq<Byte>, off: nat, m: Machine, a: Answers)
    requires OnCourse(src, off, m) && Legal(m, a) && FedNow(src, off, m, a)
    ensures OnCourse(src, Offset(off, m, a), Drive(m, a))
  {
    DriveKeepsSound(m, a);
    if m.phase == R && a.read.Bytes? {
      var n := |a.read.bytes|;
      assert src[..off] + src[off..off + n] == src[..off + n];
    }
  }

  /** For every sequence of answers the machine's record of its input is the kernel's. */
  lemma {:induction false} RunOnCourse(src: seq<Byte>, off: nat, m: Machine, answers: seq<Answers>)
    requires OnCourse(src, off, m) && LegalRun(m, answers) && Fed(src, off, m, answers)
    ensures OnCourse(src, OffsetAfter(off, m, answers), RunOf(m, answers))
    decreases |answers|
  {
    if answers != [] {
      DriveOnCourse(src, off, m, answers[0]);
      RunOnCourse(src, Offset(off, m, answers[0]), Drive(m, answers[0]), answers[1..]);
    }
  }

  /** Its record of its output is what the destination got. */
  lemma {:induction false} RunSinks(m: Machine, answers: seq<Answers>)
    requires LegalRun(m, answers)
    ensures RunOf(m, answers).output == m.output + Sunk(m, answers)
    decreases |answers|
  {
    if answers != [] {
      RunSinks(Drive(m, answers[0]), answers[1..]);
    }
  }

  /** An error is recorded only if a call has failed. */
  lemma {:induction false} RunReports(m: Machine, answers: seq<Answers>)
    requires LegalRun(m, answers)
    requires forall k :: 0 <= k < |answers| ==> !answers[k].read.ReadFails? && !answers[k].write.WriteFails?
    ensures RunOf(m, answers).strerr == m.strerr
    decreases |answers|
  {
    if answers != [] {
      assert forall k :: 0 <= k < |answers| - 1 ==> answers[1..][k] == answers[k + 1];
      RunReports(Drive(m, answers[0]), answers[1..]);
    }
  }

  /** A new machine, whatever its source holds and whatever read and write answer: the destination gets a prefix of the
  source, and if the machine stops although no read and no write has failed, it gets all of it. */
  lemma SourceDelivered(src: seq<Byte>, m: Machine, answers: seq<Answers>)
    requires NewMachine(m) && LegalRun(m, answers) && Fed(src, 0, m, answers)
    ensures Sunk(m, answers) == RunOf(m, answers).output && Sunk(m, answers) <= src && RunOf(m, answers).input <= src
    ensures RunOf(m, answers).phase == T && RunOf(m, answers).strerr == NoError ==> Sunk(m, answers) == src
    ensures RunOf(m, answers).phase == T
            && (forall k :: 0 <= k < |answers| ==> !answers[k].read.ReadFails? && !answers[k].write.WriteFails?)
            ==> Sunk(m, answers) == src
  {
    RunOnCourse(src, 0, m, answers);
    RunSinks(m, answers);
    RunKeepsSound(m, answers);
    var off := OffsetAfter(0, m, answers);
    assert off == |src| ==> src[..off] == src;
    if forall k :: 0 <= k < |answers| ==> !answers[k].read.ReadFails? && !answers[k].write.WriteFails? {
      RunReports(m, answers);
    }
  }

  // ----- termination

  /** A drive that cannot make headway: EAGAIN, a write of nothing, or a machine already stopped. */
  predicate Stalls(m: Machine, a: Answers) {
    match m.phase
    case R => a.read.ReadAgain?
    case W => a.write.WriteAgain? || a.write == Wrote(0)
    case EX => false
    case T => true
  }

  /** Drives a direction can still use, if its source holds `total` bytes in all. */
  function Budget(m: Machine, total: nat): int {
    var unread := total - |m.input|;
    match m.phase
    case R => 2 + 3 * unread
    case W => 3 + m.len + 3 * unread
    case EX => 1
    case T => 0
  }

  lemma DriveUsesBudget(m: Machine, a: Answers, total: nat)
    requires Legal(m, a) && Sound(m) && |Drive(m, a).input| <= total
    ensures if Stalls(m, a) then Drive(m, a).phase == m.phase && Budget(Drive(m, a), total) == Budget(m, total)
            else Budget(Drive(m, a), total) < Budget(m, total)
    ensures 0 <= Budget(m, total) && (Budget(m, total) == 0 <==> m.phase == T)
  {
    DriveKeepsSound(m, a);
  }

  ghost function Headway(m: Machine, answers: seq<Answers>): nat
    requires LegalRun(m, answers)
    decreases |answers|
  {
    if answers == [] then 0
    else (if Stalls(m, answers[0]) then 0 else 1) + Headway(Drive(m, answers[0]), answers[1..])
  }

  /** A direction whose source holds `total` bytes stops after at most 2 + 3 * total drives that do not stall,
  whatever the answers; and as long as it has not stopped some answer makes headway. */
  lemma {:induction false} RunTerminates(m: Machine, answers: seq<Answers>, total: nat)
    requires Sound(m) && LegalRun(m, answers) && |RunOf(m, answers).input| <= total
    ensures Headway(m, answers) + Budget(RunOf(m, answers), total) <= Budget(m, total)
    ensures 0 <= Budget(RunOf(m, answers), total)
    ensures Headway(m, answers) >= Budget(m, total) ==> RunOf(m, answers).phase == T
    decreases |answers|
  {
    if answers == [] {
      BudgetSign(m, total);
    } else {
      var m' := Drive(m, answers[0]);
      DriveKeepsSound(m, answers[0]);
      RunKeepsSound(m', answers[1..]);
      RunTerminates(m', answers[1..], total);
      DriveUsesBudget(m, answers[0], total);
    }
  }

  lemma BudgetSign(m: Machine, total: nat)
    requires Sound(m) && |m.input| <= total
    ensures 0 <= Budget(m, total) && (Budget(m, total) == 0 <==> m.phase == T)
  {
  }

  /** End to end: unless a call fails, 2 + 3 * |src| drives that do not stall deliver the whole source. */
  lemma EverythingDelivered(src: seq<Byte>, m: Machine, answers: seq<Answers>)
    requires NewMachine(m) && LegalRun(m, answers) && Fed(src, 0, m, answers)
    requires forall k :: 0 <= k < |answers| ==> !answers[k].read.ReadFails? && !answers[k].write.WriteFails?
    requires Headway(m, answers) >= 2 + 3 * |src|
    ensures Sunk(m, answers) == src
  {
    SourceDelivered(src, m, answers);
    RunTerminates(m, answers, |src|);
  }
}
