/** The job table of proIO/non-blocked/relayer/relayer.c: one thread sweeps the table under a mutex and drives every
running job once, and rel_addjob puts new jobs into free slots under the same mutex. Jobs have disjoint
descriptors, so every direction of every job has its own answers. */
module Relayer {
  import opened Arith
  import opened Relay
  import opened RelayLoops

  datatype JobState = Running | Over

  datatype Job = Job(state: JobState, m12: Machine, m21: Machine)

  datatype Slot = Empty | Holds(job: Job)

  /** The answers in store for the two directions of a job at one sweep. */
  datatype Turn = Turn(a12: Answers, a21: Answers)

  ghost predicate SoundJob(j: Job) {
    && Sound(j.m12) && Sound(j.m21)
    && (j.state == Over <==> j.m12.phase == T && j.m21.phase == T)
  }

  ghost predicate SoundSlot(s: Slot) {
    s.Holds? ==> SoundJob(s.job)
  }

  /** What one sweep does to one slot. */
  function SweepSlot(s: Slot, r: Turn): Slot
    requires SoundSlot(s)
  {
    if s == Empty || s.job.state == Over then s
    else
      var m12, m21 := Step(s.job.m12, r.a12), Step(s.job.m21, r.a21);
      Holds(Job(if m12.phase == T && m21.phase == T then Over else Running, m12, m21))
  }

  lemma SweepKeepsSlot(s: Slot, r: Turn)
    requires SoundSlot(s)
    ensures SoundSlot(SweepSlot(s, r)) && (SweepSlot(s, r) == Empty <==> s == Empty)
    ensures s.Holds? && s.job.state == Over ==> SweepSlot(s, r) == s
  {
    if s.Holds? {
      DriveKeepsSound(s.job.m12, Honest(s.job.m12, r.a12));
      DriveKeepsSound(s.job.m21, Honest(s.job.m21, r.a21));
    }
  }

  /** A job as rel_addjob makes it. */
  predicate NewJob(j: Job) {
    j.state == Running && NewMachine(j.m12) && NewMachine(j.m21)
  }

  /** The first free slot, or the table size. */
  function FreeFrom(jobs: seq<Slot>, i: nat): (r: nat)
    requires i <= |jobs|
    ensures i <= r <= |jobs|
    ensures r < |jobs| ==> jobs[r] == Empty
    ensures forall k :: i <= k < r ==> jobs[k].Holds?
    decreases |jobs| - i
  {
    if i == |jobs| || jobs[i] == Empty then i else FreeFrom(jobs, i + 1)
  }

  function AddTo(jobs: seq<Slot>, j: Job): seq<Slot> {
    var pos := FreeFrom(jobs, 0);
    if pos == |jobs| then jobs else jobs[pos := Holds(j)]
  }

  datatype Added = At(pos: nat) | NoSpace

  class Table {
    var jobs: seq<Slot>

    constructor (size: nat)
      ensures |jobs| == size && forall i :: 0 <= i < size ==> jobs[i] == Empty
    {
      jobs := seq(size, _ => Empty);
    }

    /** One pass of thr_relayer while it holds the mutex: every slot advances by its own answers alone. */
    method Sweep(turns: seq<Turn>)
      requires |turns| == |jobs| && forall i :: 0 <= i < |jobs| ==> SoundSlot(jobs[i])
      modifies this
      ensures |jobs| == |old(jobs)|
      ensures forall i :: 0 <= i < |jobs| ==> SoundSlot(old(jobs)[i]) && jobs[i] == SweepSlot(old(jobs)[i], turns[i])
    {
      var i := 0;
      while i < |jobs|
        invariant 0 <= i <= |jobs| == |old(jobs)|
        invariant forall k :: 0 <= k < |jobs| ==> SoundSlot(old(jobs)[k])
        invariant forall k :: 0 <= k < i ==> jobs[k] == SweepSlot(old(jobs)[k], turns[k])
        invariant forall k :: i <= k < |jobs| ==> jobs[k] == old(jobs)[k]
      {
        if jobs[i].Holds? && jobs[i].job.state == Running {
          assert SoundJob(jobs[i].job);
          var job := jobs[i].job;
          job := job.(m12 := Step(job.m12, turns[i].a12));
          job := job.(m21 := Step(job.m21, turns[i].a21));
          if job.m12.phase == T && job.m21.phase == T {
            job := job.(state := Over);
          }
          jobs := jobs[i := Holds(job)];
        }
        i := i + 1;
      }
    }

    method GetFreePos() returns (pos: int)
      ensures pos == if FreeFrom(jobs, 0) < |jobs| then FreeFrom(jobs, 0) else -1
    {
      for i := 0 to |jobs|
        invariant FreeFrom(jobs, 0) == FreeFrom(jobs, i)
      {
        if jobs[i] == Empty {
          return i;
        }
      }
      return -1;
    }

    /** rel_addjob: the new job goes into the first free slot, or nowhere; no other slot is touched. */
    method AddJob(j: Job) returns (r: Added)
      requires NewJob(j)
      modifies this
      ensures jobs == AddTo(old(jobs), j)
      ensures r == NoSpace <==> forall i :: 0 <= i < |old(jobs)| ==> old(jobs)[i].Holds?
      ensures r == NoSpace ==> jobs == old(jobs)
      ensures r.At? ==> r.pos < |jobs| && old(jobs)[r.pos] == Empty && jobs == old(jobs)[r.pos := Holds(j)]
    {
      var pos := GetFreePos();
      if pos < 0 {
        return NoSpace;
      }
      jobs := jobs[pos := Holds(j)];
      return At(pos);
    }
  }

  // ----- every interleaving of sweeps and adds

  datatype Op = SweepAll(turns: seq<Turn>) | Add(job: Job)

  /** An operation that suits a table of `n` slots. */
  predicate Fitting(op: Op, n: nat) {
    match op
    case SweepAll(turns) => |turns| == n
    case Add(j) => NewJob(j)
  }

  ghost predicate SoundTable(jobs: seq<Slot>) {
    forall i :: 0 <= i < |jobs| ==> SoundSlot(jobs[i])
  }

  function Apply(jobs: seq<Slot>, op: Op): seq<Slot>
    requires SoundTable(jobs) && Fitting(op, |jobs|)
  {
    match op
    case SweepAll(turns) => seq(|jobs|, i requires 0 <= i < |jobs| => SweepSlot(jobs[i], turns[i]))
    case Add(j) => AddTo(jobs, j)
  }

  lemma ApplyKeepsTable(jobs: seq<Slot>, op: Op)
    requires SoundTable(jobs) && Fitting(op, |jobs|)
    ensures SoundTable(Apply(jobs, op)) && |Apply(jobs, op)| == |jobs|
  {
    if op.SweepAll? {
      forall i | 0 <= i < |jobs| ensures SoundSlot(Apply(jobs, op)[i]) {
        SweepKeepsSlot(jobs[i], op.turns[i]);
      }
    }
  }

  ghost function After(jobs: seq<Slot>, ops: seq<Op>): (r: seq<Slot>)
    requires SoundTable(jobs) && forall k :: 0 <= k < |ops| ==> Fitting(ops[k], |jobs|)
    ensures |r| == |jobs| && SoundTable(r)
    decreases |ops|
  {
    if ops == [] then jobs
    else
      ApplyKeepsTable(jobs, ops[0]);
      After(Apply(jobs, ops[0]), ops[1..])
  }

  /** The answers that the sweeps of a run give to slot `i`. */
  function AnswersFor(ops: seq<Op>, i: nat, n: nat): seq<Turn>
    requires i < n && forall k :: 0 <= k < |ops| ==> Fitting(ops[k], n)
  {
    if ops == [] then []
    else
      assert Fitting(ops[0], n);
      (if ops[0].SweepAll? then [ops[0].turns[i]] else []) + AnswersFor(ops[1..], i, n)
  }

  ghost function SlotAfter(s: Slot, turns: seq<Turn>): (r: Slot)
    requires SoundSlot(s)
    ensures SoundSlot(r)
    decreases |turns|
  {
    if turns == [] then s
    else
      SweepKeepsSlot(s, turns[0]);
      SlotAfter(SweepSlot(s, turns[0]), turns[1..])
  }

  /** Once a slot is taken, its job's whole future depends on its own answers alone: no add and no other job ever
  touches it. */
  lemma {:induction false} JobsIndependent(jobs: seq<Slot>, ops: seq<Op>, i: nat)
    requires SoundTable(jobs) && i < |jobs| && jobs[i].Holds?
    requires forall k :: 0 <= k < |ops| ==> Fitting(ops[k], |jobs|)
    ensures After(jobs, ops)[i] == SlotAfter(jobs[i], AnswersFor(ops, i, |jobs|))
    decreases |ops|
  {
    if ops != [] {
      ApplyKeepsTable(jobs, ops[0]);
      var jobs' := Apply(jobs, ops[0]);
      var rest := AnswersFor(ops[1..], i, |jobs|);
      if ops[0].SweepAll? {
        SweepKeepsSlot(jobs[i], ops[0].turns[i]);
        assert ([ops[0].turns[i]] + rest)[1..] == rest;
      } else {
        assert [] + rest == rest;
      }
      JobsIndependent(jobs', ops[1..], i);
    }
  }

  /** A job that is over is never driven again. */
  lemma {:induction false} OverStaysOver(s: Slot, turns: seq<Turn>)
    requires SoundSlot(s) && s.Holds? && s.job.state == Over
    ensures SlotAfter(s, turns) == s
    decreases |turns|
  {
    if turns != [] {
      SweepKeepsSlot(s, turns[0]);
      OverStaysOver(s, turns[1..]);
    }
  }

  /** Each direction of a job has made one of the runs of `Relay` from where it was. */
  lemma {:induction false} DirectionsRun(s: Slot, turns: seq<Turn>)
    requires SoundSlot(s) && s.Holds?
    ensures SlotAfter(s, turns).Holds?
    ensures RanFrom(s.job.m12, SlotAfter(s, turns).job.m12) && RanFrom(s.job.m21, SlotAfter(s, turns).job.m21)
    decreases |turns|
  {
    if turns == [] {
      RanFromSelf(s.job.m12);
      RanFromSelf(s.job.m21);
    } else {
      var s' := SweepSlot(s, turns[0]);
      SweepKeepsSlot(s, turns[0]);
      DirectionsRun(s', turns[1..]);
      if s.job.state == Running {
        RanFromFirst(s.job.m12, Honest(s.job.m12, turns[0].a12), SlotAfter(s, turns).job.m12);
        RanFromFirst(s.job.m21, Honest(s.job.m21, turns[0].a21), SlotAfter(s, turns).job.m21);
      }
    }
  }

  lemma RanFromFirst(m: Machine, a: Answers, m': Machine)
    requires Sound(m) && Legal(m, a) && RanFrom(Drive(m, a), m')
    ensures RanFrom(m, m')
  {
    var answers :| LegalRun(Drive(m, a), answers) && RunOf(Drive(m, a), answers) == m';
    assert ([a] + answers)[1..] == answers;
    assert LegalRun(m, [a] + answers) && RunOf(m, [a] + answers) == m';
  }

  // ----- the streams of all jobs

  /** What a direction has written is a prefix of what it has read, and all of it if it stopped without a write error;
  it got here from a new machine by drives alone. */
  ghost predicate Streams(m: Machine) {
    && Sound(m) && m.output <= m.input && (m.phase == T && m.strerr != WriteError ==> m.output == m.input)
    && exists m0: Machine :: NewMachine(m0) && RanFrom(m0, m)
  }

  ghost predicate SlotStreams(s: Slot) {
    s.Holds? ==> Streams(s.job.m12) && Streams(s.job.m21)
  }

  lemma NewStreams(m: Machine)
    requires NewMachine(m)
    ensures Streams(m)
  {
    RanFromSelf(m);
  }

  lemma StepStreams(m: Machine, a: Answers)
    requires Streams(m)
    ensures Streams(Step(m, a))
  {
    var m0: Machine :| NewMachine(m0) && RanFrom(m0, m);
    StepKeepsSound(m, a);
    RanFromTrans(m0, m, Step(m, a));
    var answers :| LegalRun(m0, answers) && RunOf(m0, answers) == Step(m, a);
    RunKeepsSound(m0, answers);
  }

  lemma ApplyKeepsStreams(jobs: seq<Slot>, op: Op, i: nat)
    requires SoundTable(jobs) && Fitting(op, |jobs|) && i < |jobs| && SlotStreams(jobs[i])
    ensures SlotStreams(Apply(jobs, op)[i])
  {
    if op.Add? {
      NewStreams(op.job.m12);
      NewStreams(op.job.m21);
    } else if jobs[i].Holds? {
      StepStreams(jobs[i].job.m12, op.turns[i].a12);
      StepStreams(jobs[i].job.m21, op.turns[i].a21);
    }
  }

  /** Every job of every run of the relayer, over any interleaving of adds and sweeps, keeps both its streams. */
  lemma {:induction false} JobsKeepStreams(jobs: seq<Slot>, ops: seq<Op>, i: nat)
    requires SoundTable(jobs) && forall k :: 0 <= k < |jobs| ==> SlotStreams(jobs[k])
    requires i < |jobs| && forall k :: 0 <= k < |ops| ==> Fitting(ops[k], |jobs|)
    ensures SlotStreams(After(jobs, ops)[i])
    decreases |ops|
  {
    if ops != [] {
      ApplyKeepsTable(jobs, ops[0]);
      forall k | 0 <= k < |jobs| ensures SlotStreams(Apply(jobs, ops[0])[k]) {
        ApplyKeepsStreams(jobs, ops[0], k);
      }
      JobsKeepStreams(Apply(jobs, ops[0]), ops[1..], i);
    }
  }

  /** The same from the empty table on. */
  lemma EveryJobStreams(jobs: seq<Slot>, ops: seq<Op>, i: nat)
    requires i < |jobs| && forall k :: 0 <= k < |jobs| ==> jobs[k] == Empty
    requires forall k :: 0 <= k < |ops| ==> Fitting(ops[k], |jobs|)
    ensures After(jobs, ops)[i].Holds? ==>
            Streams(After(jobs, ops)[i].job.m12) && Streams(After(jobs, ops)[i].job.m21)
  {
    JobsKeepStreams(jobs, ops, i);
  }

  // ----- a job is the busy relay, and ends

  /** A sweep asks nobody whether a descriptor is ready. */
  function TurnRound(t: Turn): Round {
    Round(NO_EVENTS, NO_EVENTS, t.a12, t.a21)
  }

  function TurnRounds(turns: seq<Turn>): seq<Round> {
    if turns == [] then [] else [TurnRound(turns[0])] + TurnRounds(turns[1..])
  }

  /** The sweeps do to a job exactly what the busy loop does to its two machines. */
  lemma {:induction false} SweepsAreBusyRelay(s: Slot, turns: seq<Turn>)
    requires SoundSlot(s) && s.Holds?
    ensures SlotAfter(s, turns).Holds?
    ensures var j := SlotAfter(s, turns).job;
            (j.m12, j.m21) == Relays(true, s.job.m12, s.job.m21, TurnRounds(turns))
    decreases |turns|
  {
    if turns != [] {
      var rounds := TurnRounds(turns);
      assert rounds[0] == TurnRound(turns[0]) && rounds[1..] == TurnRounds(turns[1..]);
      SweepKeepsSlot(s, turns[0]);
      SweepsAreBusyRelay(SweepSlot(s, turns[0]), turns[1..]);
      if s.job.state == Over { OverStaysOver(s, turns); }
    }
  }

  /** Over every interleaving of sweeps and adds: a new job between sources of `t12` and `t21` bytes is over, or all but
  4 + 3 * (t12 + t21) of its sweeps got neither of its directions anywhere. */
  lemma JobsEnd(jobs: seq<Slot>, ops: seq<Op>, i: nat, t12: nat, t21: nat)
    requires SoundTable(jobs) && i < |jobs| && jobs[i].Holds? && NewJob(jobs[i].job)
    requires forall k :: 0 <= k < |ops| ==> Fitting(ops[k], |jobs|)
    requires After(jobs, ops)[i].Holds? ==>
               |After(jobs, ops)[i].job.m12.input| <= t12 && |After(jobs, ops)[i].job.m21.input| <= t21
    ensures After(jobs, ops)[i].Holds?
    ensures var j, turns := jobs[i].job, AnswersFor(ops, i, |jobs|);
            After(jobs, ops)[i].job.state == Over
            || |turns| <= IdleRounds(true, j.m12, j.m21, TurnRounds(turns)) + 4 + 3 * (t12 + t21)
  {
    var j, turns := jobs[i].job, AnswersFor(ops, i, |jobs|);
    assert SoundSlot(jobs[i]);
    JobsIndependent(jobs, ops, i);
    SweepsAreBusyRelay(jobs[i], turns);
    TurnRoundsAt(turns);
    RelaysStop(true, j.m12, j.m21, TurnRounds(turns), t12, t21);
  }

  lemma {:induction false} TurnRoundsAt(turns: seq<Turn>)
    ensures |TurnRounds(turns)| == |turns|
    ensures forall k :: 0 <= k < |turns| ==>
              TurnRounds(turns)[k].a12 == turns[k].a12 && TurnRounds(turns)[k].a21 == turns[k].a21
  {
    if turns != [] {
      TurnRoundsAt(turns[1..]);
      assert forall k :: 0 < k < |turns| ==> turns[k] == turns[1..][k - 1];
    }
  }

  /** Every answer that the sweeps of a run give to slot `i` is free of failures. */
  predicate NoFailure(turns: seq<Turn>) {
    forall k :: 0 <= k < |turns| ==>
      && !turns[k].a12.read.ReadFails? && !turns[k].a12.write.WriteFails?
      && !turns[k].a21.read.ReadFails? && !turns[k].a21.write.WriteFails?
  }

  /** Over every interleaving of sweeps and adds: the destinations of a new job get prefixes of its two sources, and all
  of them when the job is over without a failed call. */
  lemma JobsDeliver(jobs: seq<Slot>, ops: seq<Op>, i: nat, src12: seq<Byte>, src21: seq<Byte>)
    requires SoundTable(jobs) && i < |jobs| && jobs[i].Holds? && NewJob(jobs[i].job)
    requires forall k :: 0 <= k < |ops| ==> Fitting(ops[k], |jobs|)
    requires var j, rounds := jobs[i].job, TurnRounds(AnswersFor(ops, i, |jobs|));
             var a12, a21 := Answers12(true, j.m12, j.m21, rounds), Answers12(true, j.m21, j.m12, AllTurned(rounds));
             && LegalRun(j.m12, a12) && Fed(src12, 0, j.m12, a12)
             && LegalRun(j.m21, a21) && Fed(src21, 0, j.m21, a21)
    ensures After(jobs, ops)[i].Holds?
    ensures var j, rounds := jobs[i].job, TurnRounds(AnswersFor(ops, i, |jobs|));
            var a12, a21 := Answers12(true, j.m12, j.m21, rounds), Answers12(true, j.m21, j.m12, AllTurned(rounds));
            && Sunk(j.m12, a12) <= src12 && Sunk(j.m21, a21) <= src21
            && (After(jobs, ops)[i].job.state == Over && NoFailure(AnswersFor(ops, i, |jobs|)) ==>
                  Sunk(j.m12, a12) == src12 && Sunk(j.m21, a21) == src21)
  {
    var j, turns := jobs[i].job, AnswersFor(ops, i, |jobs|);
    assert SoundSlot(jobs[i]);
    JobsIndependent(jobs, ops, i);
    SweepsAreBusyRelay(jobs[i], turns);
    TurnRoundsAt(turns);
    RelaysDeliver(true, j.m12, j.m21, TurnRounds(turns), src12);
    RelaysDeliverBack(true, j.m12, j.m21, TurnRounds(turns), src21);
  }

  // ----- how the table fills

  function Adds(ops: seq<Op>): nat {
    if ops == [] then 0 else (if ops[0].Add? then 1 else 0) + Adds(ops[1..])
  }

  /** Exactly the first `k` slots are taken. */
  predicate FilledTo(jobs: seq<Slot>, k: nat) {
    k <= |jobs| && forall i :: 0 <= i < |jobs| ==> (jobs[i].Holds? <==> i < k)
  }

  /** Slots are never freed, so the table fills from the front and only the first |table| adds of a run succeed,
  whatever happens to the jobs. */
  lemma {:induction false} TableFillsUp(jobs: seq<Slot>, ops: seq<Op>, k: nat)
    requires SoundTable(jobs) && FilledTo(jobs, k)
    requires forall i :: 0 <= i < |ops| ==> Fitting(ops[i], |jobs|)
    ensures FilledTo(After(jobs, ops), Min(k + Adds(ops), |jobs|))
    decreases |ops|
  {
    if ops != [] {
      ApplyKeepsTable(jobs, ops[0]);
      var jobs' := Apply(jobs, ops[0]);
      if ops[0].SweepAll? {
        forall i | 0 <= i < |jobs| ensures jobs'[i].Holds? <==> i < k {
          SweepKeepsSlot(jobs[i], ops[0].turns[i]);
        }
        TableFillsUp(jobs', ops[1..], k);
      } else {
        var pos := FreeFrom(jobs, 0);
        assert pos == k by {
          if k < |jobs| { assert jobs[k] == Empty; }
        }
        TableFillsUp(jobs', ops[1..], Min(k + 1, |jobs|));
      }
    }
  }
}
