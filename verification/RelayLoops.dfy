/** The relay's state machine as an object with its buffer, and the three loops that drive two of them: the busy
loop (proIO/non-blocked/relay.c), the poll loop (proIO/epoll/relay.c) and the epoll loop (proIO/poll/relay.c). */
module RelayLoops {
  import opened Relay

  /** The answers the kernel can give: never more bytes than asked for, and reading nothing is end of file. */
  function Honest(m: Machine, a: Answers): (r: Answers)
    requires m.phase == W ==> m.len >= 0
    ensures Legal(m, r)
    ensures Legal(m, a) ==> r == a
  {
    Answers(
      if m.phase == R && a.read.Bytes? then
        var bytes := if |a.read.bytes| <= |m.buf| then a.read.bytes else a.read.bytes[..|m.buf|];
        if bytes == [] then EndOfFile else Bytes(bytes)
      else a.read,
      if m.phase == W && a.write.Wrote? && a.write.n > m.len then Wrote(m.len) else a.write)
  }

  class Fsm {
    var phase: Phase
    const buf: array<Byte>
    var pos: int
    var len: int
    var strerr: Failed
    ghost var input: seq<Byte>
    ghost var output: seq<Byte>

    ghost function Abs(): Machine
      reads this, buf
    {
      Machine(phase, buf[..], pos, len, strerr, input, output)
    }

    constructor (size: nat)
      ensures Abs().phase == R && Sound(Abs()) && input == [] && buf.Length == size && fresh(buf)
    {
      phase, pos, len, strerr, input, output := R, 0, 0, NoError, [], [];
      buf := new Byte[size](_ => 0);
    }

    /** What read leaves in the buffer. */
    method Fill(bytes: seq<Byte>)
      requires |bytes| <= buf.Length
      modifies buf
      ensures buf[..] == bytes + old(buf[..])[|bytes|..]
    {
      ghost var was := buf[..];
      for i := 0 to |bytes|
        invariant buf[..i] == bytes[..i] && buf[i..] == was[i..]
      {
        buf[i] := bytes[i];
      }
      assert buf[..] == buf[..|bytes|] + buf[|bytes|..];
    }

    method DriverReads(a: ReadAnswer)
      requires phase == R && Sound(Abs())
      modifies this, buf
      ensures forall w :: var m := old(Abs()); Abs() == Drive(m, Honest(m, Answers(a, w)))
    {
      match a
      case Bytes(offered) =>
        var bytes := if |offered| <= buf.Length then offered else offered[..buf.Length];
        Fill(bytes);
        len := |bytes|;
        if len == 0 {
          assert buf[..] == old(buf[..]);
          phase := T;
        } else {
          pos := 0;
          phase := W;
          input := input + bytes;
        }
      case EndOfFile =>
        len := 0;
        phase := T;
      case ReadAgain => len := -1;
      case ReadFails =>
        len := -1;
        strerr := ReadError;
        phase := EX;
    }

    method DriverWrites(a: WriteAnswer)
      requires phase == W && Sound(Abs())
      modifies this
      ensures forall r :: var m := old(Abs()); Abs() == Drive(m, Honest(m, Answers(r, a)))
    {
      match a
      case Wrote(k) =>
        var ret := if k <= len then k else len;
        output := output + buf[pos..pos + ret];
        pos := pos + ret;
        len := len - ret;
        phase := if len == 0 then R else W;
      case WriteAgain =>
      case WriteFails =>
        strerr := WriteError;
        phase := EX;
    }

    /** fsm_driver. */
    method Driver(a: Answers)
      requires Sound(Abs())
      modifies this, buf
      ensures Abs() == Drive(old(Abs()), Honest(old(Abs()), a)) && Sound(Abs())
    {
      DriveKeepsSound(Abs(), Honest(Abs(), a));
      match phase
      case R => DriverReads(a.read);
      case W => DriverWrites(a.write);
      case EX => phase := T;
      case T =>
    }
  }

  /** `m` is where some sequence of answers takes `m0`. */
  ghost predicate RanFrom(m0: Machine, m: Machine) {
    exists answers :: LegalRun(m0, answers) && RunOf(m0, answers) == m
  }

  lemma {:induction false} RunSnoc(m: Machine, answers: seq<Answers>, a: Answers)
    requires Sound(m) && LegalRun(m, answers) && Legal(RunOf(m, answers), a)
    ensures Sound(RunOf(m, answers)) && LegalRun(m, answers + [a])
    ensures RunOf(m, answers + [a]) == Drive(RunOf(m, answers), a)
    decreases |answers|
  {
    RunKeepsSound(m, answers);
    if answers == [] {
      assert ([] + [a])[1..] == [];
    } else {
      DriveKeepsSound(m, answers[0]);
      assert (answers + [a])[1..] == answers[1..] + [a];
      RunSnoc(Drive(m, answers[0]), answers[1..], a);
    }
  }

  lemma RanFromDrive(m0: Machine, m: Machine, a: Answers)
    requires Sound(m0) && Sound(m) && RanFrom(m0, m) && Legal(m, a)
    ensures Sound(Drive(m, a)) && RanFrom(m0, Drive(m, a))
  {
    var answers :| LegalRun(m0, answers) && RunOf(m0, answers) == m;
    RunSnoc(m0, answers, a);
    DriveKeepsSound(m, a);
  }

  lemma RanFromSelf(m: Machine)
    ensures RanFrom(m, m)
  {
    assert LegalRun(m, []) && RunOf(m, []) == m;
  }

  // ----- readiness

  /** POLLIN and POLLOUT of one descriptor. */
  datatype Events = Events(readable: bool, writable: bool)

  const NO_EVENTS := Events(false, false)

  /** `state > STATE_AUTO`: the machine needs no descriptor to go on. */
  predicate Auto(p: Phase) {
    p == EX || p == T
  }

  /** The machine can use a drive: its next call is on a descriptor that is ready, or it makes none. */
  predicate Usable(p: Phase, source: Events, destination: Events) {
    (p == R && source.readable) || (p == W && destination.writable) || Auto(p)
  }

  /** One turn of a relay loop: which descriptors are ready, and the answers in store for each direction. */
  datatype Round = Round(ready1: Events, ready2: Events, a12: Answers, a21: Answers)

  /** What the loops are meant to do: as long as a direction has not stopped, drive in every round each direction
  that can use it, or both without asking if `busy`. Each descriptor is the source of one direction and the
  destination of the other. */
  ghost function Relays(busy: bool, m12: Machine, m21: Machine, rounds: seq<Round>): (Machine, Machine)
    requires Sound(m12) && Sound(m21)
    decreases |rounds|
  {
    if rounds == [] || (m12.phase == T && m21.phase == T) then (m12, m21)
    else
      var (n12, n21) := RelayRound(busy, m12, m21, rounds[0]);
      RoundKeepsSound(busy, m12, m21, rounds[0]);
      Relays(busy, n12, n21, rounds[1..])
  }

  function Step(m: Machine, a: Answers): Machine
    requires Sound(m)
  {
    Drive(m, Honest(m, a))
  }

  function RelayRound(busy: bool, m12: Machine, m21: Machine, r: Round): (Machine, Machine)
    requires Sound(m12) && Sound(m21)
  {
    (if busy || Usable(m12.phase, r.ready1, r.ready2) then Step(m12, r.a12) else m12,
     if busy || Usable(m21.phase, r.ready2, r.ready1) then Step(m21, r.a21) else m21)
  }

  lemma StepKeepsSound(m: Machine, a: Answers)
    requires Sound(m)
    ensures Sound(Step(m, a)) && RanFrom(m, Step(m, a))
  {
    DriveKeepsSound(m, Honest(m, a));
    RanFromSelf(m);
    RanFromDrive(m, m, Honest(m, a));
  }

  lemma RoundKeepsSound(busy: bool, m12: Machine, m21: Machine, r: Round)
    requires Sound(m12) && Sound(m21)
    ensures var (n12, n21) := RelayRound(busy, m12, m21, r);
            Sound(n12) && Sound(n21) && RanFrom(m12, n12) && RanFrom(m21, n21)
  {
    StepKeepsSound(m12, r.a12);
    StepKeepsSound(m21, r.a21);
    RanFromSelf(m12);
    RanFromSelf(m21);
  }

  lemma {:induction false} RanFromTrans(m: Machine, m': Machine, m'': Machine)
    requires Sound(m) && RanFrom(m, m') && RanFrom(m', m'')
    ensures RanFrom(m, m'')
  {
    var first :| LegalRun(m, first) && RunOf(m, first) == m';
    var second :| LegalRun(m', second) && RunOf(m', second) == m'';
    RunConcat(m, first, second);
  }

  lemma {:induction false} RunConcat(m: Machine, first: seq<Answers>, second: seq<Answers>)
    requires Sound(m) && LegalRun(m, first) && LegalRun(RunOf(m, first), second)
    ensures LegalRun(m, first + second) && RunOf(m, first + second) == RunOf(RunOf(m, first), second)
    decreases |first|
  {
    if first == [] {
      assert first + second == second;
    } else {
      assert (first + second)[1..] == first[1..] + second;
      DriveKeepsSound(m, first[0]);
      RunConcat(Drive(m, first[0]), first[1..], second);
    }
  }

  /** Whichever loop picks the steps, each direction makes one of the runs of `Relay`: what it has written is a
  prefix of what it has read, and all of it if it stopped without a write error. */
  lemma {:induction false} RelaysSound(busy: bool, m12: Machine, m21: Machine, rounds: seq<Round>)
    requires Sound(m12) && Sound(m21)
    ensures var (n12, n21) := Relays(busy, m12, m21, rounds);
            Sound(n12) && Sound(n21) && RanFrom(m12, n12) && RanFrom(m21, n21)
    decreases |rounds|
  {
    if rounds == [] || (m12.phase == T && m21.phase == T) {
      RanFromSelf(m12);
      RanFromSelf(m21);
    } else {
      var (n12, n21) := RelayRound(busy, m12, m21, rounds[0]);
      RoundKeepsSound(busy, m12, m21, rounds[0]);
      RelaysSound(busy, n12, n21, rounds[1..]);
      var (z12, z21) := Relays(busy, m12, m21, rounds);
      RanFromTrans(m12, n12, z12);
      RanFromTrans(m21, n21, z21);
    }
  }

  // ----- from source to destination

  /** The answers that the first direction has got when the loop has played these rounds. */
  ghost function Answers12(busy: bool, m12: Machine, m21: Machine, rounds: seq<Round>): seq<Answers>
    requires Sound(m12) && Sound(m21)
    decreases |rounds|
  {
    if rounds == [] || (m12.phase == T && m21.phase == T) then []
    else
      var (n12, n21) := RelayRound(busy, m12, m21, rounds[0]);
      RoundKeepsSound(busy, m12, m21, rounds[0]);
      (if busy || Usable(m12.phase, rounds[0].ready1, rounds[0].ready2) then [Honest(m12, rounds[0].a12)] else [])
      + Answers12(busy, n12, n21, rounds[1..])
  }

  /** The other direction is the first one of the relay seen from the other side. */
  function Turned(r: Round): Round {
    Round(r.ready2, r.ready1, r.a21, r.a12)
  }

  function AllTurned(rounds: seq<Round>): seq<Round> {
    if rounds == [] then [] else [Turned(rounds[0])] + AllTurned(rounds[1..])
  }

  lemma {:induction false} RelaysTurned(busy: bool, m12: Machine, m21: Machine, rounds: seq<Round>)
    requires Sound(m12) && Sound(m21)
    ensures Relays(busy, m21, m12, AllTurned(rounds)).0 == Relays(busy, m12, m21, rounds).1
    ensures Relays(busy, m21, m12, AllTurned(rounds)).1 == Relays(busy, m12, m21, rounds).0
    decreases |rounds|
  {
    if rounds != [] && !(m12.phase == T && m21.phase == T) {
      var turned := AllTurned(rounds);
      assert turned[0] == Turned(rounds[0]) && turned[1..] == AllTurned(rounds[1..]);
      var (n12, n21) := RelayRound(busy, m12, m21, rounds[0]);
      RoundKeepsSound(busy, m12, m21, rounds[0]);
      assert RelayRound(busy, m21, m12, turned[0]) == (n21, n12);
      RelaysTurned(busy, n12, n21, rounds[1..]);
    }
  }

  /** The loop takes the first direction where its answers take it, and all of them are answers of the rounds. */
  lemma {:induction false} RelaysRun(busy: bool, m12: Machine, m21: Machine, rounds: seq<Round>)
    requires Sound(m12) && Sound(m21)
    ensures var answers := Answers12(busy, m12, m21, rounds);
            LegalRun(m12, answers) && RunOf(m12, answers) == Relays(busy, m12, m21, rounds).0
    decreases |rounds|
  {
    if rounds != [] && !(m12.phase == T && m21.phase == T) {
      var (n12, n21) := RelayRound(busy, m12, m21, rounds[0]);
      RoundKeepsSound(busy, m12, m21, rounds[0]);
      var rest := Answers12(busy, n12, n21, rounds[1..]);
      RelaysRun(busy, n12, n21, rounds[1..]);
      if busy || Usable(m12.phase, rounds[0].ready1, rounds[0].ready2) {
        assert ([Honest(m12, rounds[0].a12)] + rest)[1..] == rest;
      } else {
        assert [] + rest == rest;
      }
    }
  }

  lemma {:induction false} FailuresOfRounds(busy: bool, m12: Machine, m21: Machine, rounds: seq<Round>)
    requires Sound(m12) && Sound(m21)
    requires forall k :: 0 <= k < |rounds| ==> !rounds[k].a12.read.ReadFails? && !rounds[k].a12.write.WriteFails?
    ensures forall k :: 0 <= k < |Answers12(busy, m12, m21, rounds)| ==>
              var a := Answers12(busy, m12, m21, rounds)[k]; !a.read.ReadFails? && !a.write.WriteFails?
    decreases |rounds|
  {
    if rounds != [] && !(m12.phase == T && m21.phase == T) {
      var (n12, n21) := RelayRound(busy, m12, m21, rounds[0]);
      RoundKeepsSound(busy, m12, m21, rounds[0]);
      assert forall k :: 0 <= k < |rounds| - 1 ==> rounds[1..][k] == rounds[k + 1];
      FailuresOfRounds(busy, n12, n21, rounds[1..]);
    }
  }

  /** The first direction of a relay between new machines, in any of the loops: the kernel feeds it a source `src`. Then
  its destination gets a prefix of it, and if the direction stops although none of its calls has failed, all of it. */
  lemma RelaysDeliver(busy: bool, m12: Machine, m21: Machine, rounds: seq<Round>, src: seq<Byte>)
    requires NewMachine(m12) && Sound(m21)
    requires LegalRun(m12, Answers12(busy, m12, m21, rounds))
             && Fed(src, 0, m12, Answers12(busy, m12, m21, rounds))
    ensures var got := Sunk(m12, Answers12(busy, m12, m21, rounds));
            && got == Relays(busy, m12, m21, rounds).0.output && got <= src
            && (Relays(busy, m12, m21, rounds).0.phase == T
                && (forall k :: 0 <= k < |rounds| ==>
                      !rounds[k].a12.read.ReadFails? && !rounds[k].a12.write.WriteFails?)
                ==> got == src)
  {
    RelaysRun(busy, m12, m21, rounds);
    SourceDelivered(src, m12, Answers12(busy, m12, m21, rounds));
    if forall k :: 0 <= k < |rounds| ==> !rounds[k].a12.read.ReadFails? && !rounds[k].a12.write.WriteFails? {
      FailuresOfRounds(busy, m12, m21, rounds);
    }
  }

  lemma {:induction false} AllTurnedAt(rounds: seq<Round>)
    ensures |AllTurned(rounds)| == |rounds|
    ensures forall k :: 0 <= k < |rounds| ==> AllTurned(rounds)[k].a12 == rounds[k].a21
  {
    if rounds != [] {
      AllTurnedAt(rounds[1..]);
      assert forall k :: 0 < k < |rounds| ==> rounds[k] == rounds[1..][k - 1];
    }
  }

  /** The same for the other direction. */
  lemma RelaysDeliverBack(busy: bool, m12: Machine, m21: Machine, rounds: seq<Round>, src: seq<Byte>)
    requires Sound(m12) && NewMachine(m21)
    requires LegalRun(m21, Answers12(busy, m21, m12, AllTurned(rounds)))
             && Fed(src, 0, m21, Answers12(busy, m21, m12, AllTurned(rounds)))
    ensures var got := Sunk(m21, Answers12(busy, m21, m12, AllTurned(rounds)));
            && got == Relays(busy, m12, m21, rounds).1.output && got <= src
            && (Relays(busy, m12, m21, rounds).1.phase == T
                && (forall k :: 0 <= k < |rounds| ==>
                      !rounds[k].a21.read.ReadFails? && !rounds[k].a21.write.WriteFails?)
                ==> got == src)
  {
    RelaysTurned(busy, m12, m21, rounds);
    AllTurnedAt(rounds);
    RelaysDeliver(busy, m21, m12, AllTurned(rounds), src);
  }

  // ----- the loops end

  /** A direction that has met an error has stopped after the next round of any loop, whatever is ready; one that has
  stopped stays so. */
  lemma ErrorEnds(busy: bool, m12: Machine, m21: Machine, r: Round)
    requires Sound(m12) && Sound(m21)
    ensures m12.phase == EX || m12.phase == T ==> RelayRound(busy, m12, m21, r).0.phase == T
    ensures m21.phase == EX || m21.phase == T ==> RelayRound(busy, m12, m21, r).1.phase == T
  {
  }

  /** The loops that ask leave a direction alone whose next call is on a descriptor that is not ready; the other
  direction does not matter. */
  lemma NotReadyStays(m12: Machine, m21: Machine, r: Round)
    requires Sound(m12) && Sound(m21)
    ensures m12.phase == R && !r.ready1.readable ==> RelayRound(false, m12, m21, r).0 == m12
    ensures m12.phase == W && !r.ready2.writable ==> RelayRound(false, m12, m21, r).0 == m12
    ensures m21.phase == R && !r.ready2.readable ==> RelayRound(false, m12, m21, r).1 == m21
    ensures m21.phase == W && !r.ready1.writable ==> RelayRound(false, m12, m21, r).1 == m21
  {
  }

  /** A direction gets nowhere in this round: it has stopped, or its descriptor is not ready and it asks first, or the
  answer is EAGAIN or that nothing was written. */
  predicate Held(busy: bool, m: Machine, source: Events, destination: Events, a: Answers) {
    || m.phase == T
    || (m.phase == R && ((!busy && !source.readable) || a.read.ReadAgain?))
    || (m.phase == W && ((!busy && !destination.writable) || a.write.WriteAgain? || a.write == Wrote(0)))
  }

  /** Neither direction gets anywhere in this round. */
  predicate Idle(busy: bool, m12: Machine, m21: Machine, r: Round) {
    Held(busy, m12, r.ready1, r.ready2, r.a12) && Held(busy, m21, r.ready2, r.ready1, r.a21)
  }

  ghost function IdleRounds(busy: bool, m12: Machine, m21: Machine, rounds: seq<Round>): nat
    requires Sound(m12) && Sound(m21)
    decreases |rounds|
  {
    if rounds == [] || (m12.phase == T && m21.phase == T) then 0
    else
      var (n12, n21) := RelayRound(busy, m12, m21, rounds[0]);
      RoundKeepsSound(busy, m12, m21, rounds[0]);
      (if Idle(busy, m12, m21, rounds[0]) then 1 else 0) + IdleRounds(busy, n12, n21, rounds[1..])
  }

  lemma InputGrows(m: Machine, m': Machine)
    requires Sound(m) && RanFrom(m, m')
    ensures |m.input| <= |m'.input|
  {
    var answers :| LegalRun(m, answers) && RunOf(m, answers) == m';
    RunKeepsSound(m, answers);
  }

  lemma StepBudget(m: Machine, a: Answers, total: nat)
    requires Sound(m) && |Step(m, a).input| <= total
    ensures 0 <= Budget(Step(m, a), total) <= Budget(m, total)
    ensures !Stalls(m, Honest(m, a)) ==> Budget(Step(m, a), total) < Budget(m, total)
  {
    DriveUsesBudget(m, Honest(m, a), total);
    StepKeepsSound(m, a);
    BudgetSign(Step(m, a), total);
  }

  lemma NotHeldNotStalled(busy: bool, m: Machine, source: Events, destination: Events, a: Answers)
    requires Sound(m) && !Held(busy, m, source, destination, a)
    ensures (busy || Usable(m.phase, source, destination)) && !Stalls(m, Honest(m, a))
  {
  }

  lemma RoundUsesBudget(busy: bool, m12: Machine, m21: Machine, r: Round, t12: nat, t21: nat)
    requires Sound(m12) && Sound(m21)
    requires |RelayRound(busy, m12, m21, r).0.input| <= t12 && |RelayRound(busy, m12, m21, r).1.input| <= t21
    ensures var (n12, n21) := RelayRound(busy, m12, m21, r);
            Budget(n12, t12) + Budget(n21, t21) + (if Idle(busy, m12, m21, r) then 0 else 1)
            <= Budget(m12, t12) + Budget(m21, t21)
  {
    if !Held(busy, m12, r.ready1, r.ready2, r.a12) { NotHeldNotStalled(busy, m12, r.ready1, r.ready2, r.a12); }
    if !Held(busy, m21, r.ready2, r.ready1, r.a21) { NotHeldNotStalled(busy, m21, r.ready2, r.ready1, r.a21); }
    if busy || Usable(m12.phase, r.ready1, r.ready2) { StepBudget(m12, r.a12, t12); }
    if busy || Usable(m21.phase, r.ready2, r.ready1) { StepBudget(m21, r.a21, t21); }
  }

  /** A relay between sources of `t12` and `t21` bytes that has not stopped after all its rounds has spent at most
  4 + 3 * (t12 + t21) of them (from fresh machines) on anything but idling: finite input and finitely many idle
  rounds drive both directions to the end. */
  lemma {:induction false} RelaysStop(busy: bool, m12: Machine, m21: Machine, rounds: seq<Round>, t12: nat, t21: nat)
    requires Sound(m12) && Sound(m21)
    requires |Relays(busy, m12, m21, rounds).0.input| <= t12 && |Relays(busy, m12, m21, rounds).1.input| <= t21
    ensures var (n12, n21) := Relays(busy, m12, m21, rounds);
            (n12.phase == T && n21.phase == T)
            || |rounds| <= IdleRounds(busy, m12, m21, rounds) + Budget(m12, t12) + Budget(m21, t21)
    decreases |rounds|
  {
    RelaysSound(busy, m12, m21, rounds);
    if rounds == [] || (m12.phase == T && m21.phase == T) {
      BudgetSign(m12, t12);
      BudgetSign(m21, t21);
    } else {
      var (n12, n21) := RelayRound(busy, m12, m21, rounds[0]);
      RoundKeepsSound(busy, m12, m21, rounds[0]);
      RelaysSound(busy, n12, n21, rounds[1..]);
      InputGrows(n12, Relays(busy, m12, m21, rounds).0);
      InputGrows(n21, Relays(busy, m12, m21, rounds).1);
      RoundUsesBudget(busy, m12, m21, rounds[0], t12, t21);
      RelaysStop(busy, n12, n21, rounds[1..], t12, t21);
    }
  }

  // ----- the three loops

  /** Two machines that share nothing. */
  ghost predicate Apart(f: Fsm, g: Fsm) {
    f != g && f.buf != g.buf
  }

  /** The end of every loop's body: drive the chosen directions, first one, then the other. */
  method DriveChosen(f12: Fsm, f21: Fsm, go12: bool, go21: bool, ghost busy: bool, r: Round)
    requires Apart(f12, f21) && Sound(f12.Abs()) && Sound(f21.Abs())
    requires go12 == (busy || Usable(f12.phase, r.ready1, r.ready2))
    requires go21 == (busy || Usable(f21.phase, r.ready2, r.ready1))
    modifies f12, f12.buf, f21, f21.buf
    ensures Sound(f12.Abs()) && Sound(f21.Abs())
    ensures (f12.Abs(), f21.Abs()) == RelayRound(busy, old(f12.Abs()), old(f21.Abs()), r)
  {
    if go12 {
      f12.Driver(r.a12);
    }
    if go21 {
      f21.Driver(r.a21);
    }
  }

  /** relay() in proIO/non-blocked/relay.c, for as many rounds as the environment answers. */
  method BusyRelay(f12: Fsm, f21: Fsm, rounds: seq<Round>) returns (stopped: bool)
    requires Apart(f12, f21) && Sound(f12.Abs()) && Sound(f21.Abs())
    modifies f12, f12.buf, f21, f21.buf
    ensures (f12.Abs(), f21.Abs()) == Relays(true, old(f12.Abs()), old(f21.Abs()), rounds)
    ensures stopped <==> f12.phase == T && f21.phase == T
  {
    var k := 0;
    while (f12.phase != T || f21.phase != T) && k < |rounds|
      invariant 0 <= k <= |rounds| && Sound(f12.Abs()) && Sound(f21.Abs())
      invariant Relays(true, f12.Abs(), f21.Abs(), rounds[k..]) == Relays(true, old(f12.Abs()), old(f21.Abs()), rounds)
      decreases |rounds| - k
    {
      assert rounds[k..][0] == rounds[k] && rounds[k..][1..] == rounds[k + 1..];
      DriveChosen(f12, f21, true, true, true, rounds[k]);
      k := k + 1;
    }
    stopped := f12.phase == T && f21.phase == T;
  }

  function Wanted1(p12: Phase, p21: Phase): Events {
    Events(p12 == R, p21 == W)
  }

  function Wanted2(p12: Phase, p21: Phase): Events {
    Events(p21 == R, p12 == W)
  }

  /** The requested conditions that hold. */
  function Reported(wanted: Events, ready: Events): Events {
    Events(wanted.readable && ready.readable, wanted.writable && ready.writable)
  }

  /** The loop that calls poll (proIO/epoll/relay.c). Although each descriptor serves both directions, it drives
  exactly the directions that can use it. The last reported events stay in `revents1` and `revents2` when poll is
  not called, which happens only when neither direction needs a descriptor. */
  method PollRelay(f12: Fsm, f21: Fsm, rounds: seq<Round>) returns (stopped: bool)
    requires Apart(f12, f21) && Sound(f12.Abs()) && Sound(f21.Abs())
    modifies f12, f12.buf, f21, f21.buf
    ensures (f12.Abs(), f21.Abs()) == Relays(false, old(f12.Abs()), old(f21.Abs()), rounds)
    ensures stopped <==> f12.phase == T && f21.phase == T
  {
    var revents1, revents2 := NO_EVENTS, NO_EVENTS;
    var k := 0;
    while (f12.phase != T || f21.phase != T) && k < |rounds|
      invariant 0 <= k <= |rounds| && Sound(f12.Abs()) && Sound(f21.Abs())
      invariant Relays(false, f12.Abs(), f21.Abs(), rounds[k..])
                == Relays(false, old(f12.Abs()), old(f21.Abs()), rounds)
      decreases |rounds| - k
    {
      assert rounds[k..][0] == rounds[k] && rounds[k..][1..] == rounds[k + 1..];
      var events1, events2 := Wanted1(f12.phase, f21.phase), Wanted2(f12.phase, f21.phase);
      if !Auto(f12.phase) || !Auto(f21.phase) {
        revents1, revents2 := Reported(events1, rounds[k].ready1), Reported(events2, rounds[k].ready2);
      }
      var go12 := revents1.readable || revents2.writable || Auto(f12.phase);
      var go21 := revents2.readable || revents1.writable || Auto(f21.phase);
      DriveChosen(f12, f21, go12, go21, false, rounds[k]);
      k := k + 1;
    }
    stopped := f12.phase == T && f21.phase == T;
  }

  /** epoll_wait is asked for one event: of the first descriptor or of the second. */
  datatype Report = Report(first: bool, ready: Events, a12: Answers, a21: Answers)

  /** The round that a single report amounts to: the other descriptor says nothing. */
  function AsRound(r: Report): Round {
    Round(if r.first then r.ready else NO_EVENTS, if r.first then NO_EVENTS else r.ready, r.a12, r.a21)
  }

  function AsRounds(reports: seq<Report>): seq<Round> {
    seq(|reports|, i requires 0 <= i < |reports| => AsRound(reports[i]))
  }

  /** The loop that calls epoll (proIO/poll/relay.c). The one event record is reused for registering and waiting. */
  method EpollRelay(f12: Fsm, f21: Fsm, reports: seq<Report>) returns (stopped: bool)
    requires Apart(f12, f21) && Sound(f12.Abs()) && Sound(f21.Abs())
    modifies f12, f12.buf, f21, f21.buf
    ensures (f12.Abs(), f21.Abs()) == Relays(false, old(f12.Abs()), old(f21.Abs()), AsRounds(reports))
    ensures stopped <==> f12.phase == T && f21.phase == T
  {
    ghost var rounds := AsRounds(reports);
    var k := 0;
    while (f12.phase != T || f21.phase != T) && k < |reports|
      invariant 0 <= k <= |reports| && Sound(f12.Abs()) && Sound(f21.Abs())
      invariant Relays(false, f12.Abs(), f21.Abs(), rounds[k..])
                == Relays(false, old(f12.Abs()), old(f21.Abs()), rounds)
      decreases |reports| - k
    {
      assert rounds[k..][0] == AsRound(reports[k]) && rounds[k..][1..] == rounds[k + 1..];
      var wanted1, wanted2 := Wanted1(f12.phase, f21.phase), Wanted2(f12.phase, f21.phase);
      var first, ev := false, wanted2;
      if !Auto(f12.phase) || !Auto(f21.phase) {
        first := reports[k].first;
        ev := Reported(if first then wanted1 else wanted2, reports[k].ready);
      }
      var go12 := (first && ev.readable) || (!first && ev.writable) || Auto(f12.phase);
      var go21 := (first && ev.writable) || (!first && ev.readable) || Auto(f21.phase);
      DriveChosen(f12, f21, go12, go21, false, AsRound(reports[k]));
      k := k + 1;
    }
    stopped := f12.phase == T && f21.phase == T;
  }
}
