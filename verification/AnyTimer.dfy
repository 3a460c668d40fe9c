/** The timer table of anytimer/anytimer.c: many jobs on one clock. A callback is an event in a log; a job gets a serial
number when it is added, so that the log tells jobs apart even when a slot is reused. Counters are mathematical
integers. */
module AnyTimer {
  import opened Arith

  datatype JobState = Running | Canceled | Over

  datatype Job = Job(state: JobState, sec: nat, remain: int, repeat: bool, serial: nat)

  datatype Slot = Empty | Holds(job: Job)

  /** The table, the log of callbacks (by serial number) and the next serial number. */
  datatype State = State(jobs: seq<Slot>, fired: seq<nat>, next: nat)

  datatype Error = EINVAL | ENOSPC | ECANCELED | EBUSY

  datatype Result = Ok(pos: nat) | Err(error: Error)

  /** at_waitjob also waits while the job runs. */
  datatype WaitResult = Freed | StillRunning | Refused(error: Error)

  // ----- one slot

  predicate Active(s: Slot) {
    s.Holds? && s.job.state == Running
  }

  /** The callback of this slot runs at the next tick. */
  predicate Fires(s: Slot) {
    Active(s) && s.job.remain == 1
  }

  /** The body of alrm_action's loop. */
  function TickSlot(s: Slot): Slot {
    if !Active(s) then s
    else if s.job.remain != 1 then Holds(s.job.(remain := s.job.remain - 1))
    else if s.job.repeat then Holds(s.job.(remain := s.job.sec))
    else Holds(s.job.(remain := 0, state := Over))
  }

  /** The callbacks of one tick, in slot order. */
  function TickLog(jobs: seq<Slot>): seq<nat> {
    if jobs == [] then [] else (if Fires(jobs[0]) then [jobs[0].job.serial] else []) + TickLog(jobs[1..])
  }

  /** The first free slot, or the table size. */
  function FreePos(jobs: seq<Slot>): (r: nat)
    ensures r <= |jobs| && (r < |jobs| ==> jobs[r] == Empty)
    ensures forall k :: 0 <= k < r ==> jobs[k].Holds?
  {
    if jobs == [] || jobs[0] == Empty then 0 else 1 + FreePos(jobs[1..])
  }

  // ----- the operations

  datatype Op = Tick(kernel: bool) | Add(sec: int, repeat: bool) | Cancel(id: int) | Wait(id: int)

  predicate InTable(st: State, id: int) {
    0 <= id < |st.jobs| && st.jobs[id].Holds?
  }

  function Apply(st: State, op: Op): State {
    match op
    case Tick(kernel) =>
      if !kernel then st
      else st.(jobs := seq(|st.jobs|, i requires 0 <= i < |st.jobs| => TickSlot(st.jobs[i])),
               fired := st.fired + TickLog(st.jobs))
    case Add(sec, repeat) =>
      var pos := FreePos(st.jobs);
      if sec < 0 || pos == |st.jobs| then st
      else st.(jobs := st.jobs[pos := Holds(Job(Running, sec, sec, repeat, st.next))], next := st.next + 1)
    case Cancel(id) =>
      if InTable(st, id) && st.jobs[id].job.state == Running then
        st.(jobs := st.jobs[id := Holds(st.jobs[id].job.(state := Canceled))])
      else st
    case Wait(id) =>
      if InTable(st, id) && !st.jobs[id].job.repeat && st.jobs[id].job.state != Running then
        st.(jobs := st.jobs[id := Empty])
      else st
  }

  class Timer {
    var jobs: seq<Slot>
    var fired: seq<nat>
    var next: nat

    ghost function Abs(): State
      reads this
    {
      State(jobs, fired, next)
    }

    constructor (size: nat)
      ensures |jobs| == size && fired == [] && forall i :: 0 <= i < size ==> jobs[i] == Empty
    {
      jobs, fired, next := seq(size, _ => Empty), [], 0;
    }

    /** alrm_action. */
    method AlarmAction(kernel: bool)
      modifies this
      ensures Abs() == Apply(old(Abs()), Tick(kernel))
      ensures !kernel ==> jobs == old(jobs) && fired == old(fired)
      ensures kernel ==> |jobs| == |old(jobs)| && forall i :: 0 <= i < |jobs| ==>
        if old(jobs)[i] == Empty || old(jobs)[i].job.state != Running then jobs[i] == old(jobs)[i]
        else
          var j := old(jobs)[i].job;
          jobs[i] == Holds(if j.remain != 1 then j.(remain := j.remain - 1)
                           else if j.repeat then j.(remain := j.sec)
                           else j.(remain := 0, state := Over))
    {
      if !kernel {
        return;
      }
      ghost var was := jobs;
      for i := 0 to |jobs|
        invariant |jobs| == |was| && next == old(next)
        invariant forall k :: 0 <= k < i ==> jobs[k] == TickSlot(was[k])
        invariant forall k :: i <= k < |was| ==> jobs[k] == was[k]
        invariant fired + TickLog(was[i..]) == old(fired) + TickLog(was)
      {
        assert was[i..][1..] == was[i + 1..] && was[i..][0] == was[i];
        if jobs[i].Holds? && jobs[i].job.state == Running {
          var job := jobs[i].job;
          job := job.(remain := job.remain - 1);
          if job.remain == 0 {
            fired := fired + [job.serial];
            if job.repeat {
              job := job.(remain := job.sec);
            } else {
              job := job.(state := Over);
            }
          }
          jobs := jobs[i := Holds(job)];
        }
      }
      assert was[|was|..] == [];
      assert jobs == Apply(old(Abs()), Tick(kernel)).jobs;
    }

    method GetFreePos() returns (pos: int)
      ensures pos == if FreePos(jobs) < |jobs| then FreePos(jobs) else -1
    {
      for i := 0 to |jobs|
        invariant FreePos(jobs) == i + FreePos(jobs[i..])
      {
        assert jobs[i..][1..] == jobs[i + 1..];
        if jobs[i] == Empty {
          return i;
        }
      }
      return -1;
    }

    /** at_addjob and at_addjob_repeat. */
    method AddJob(sec: int, repeat: bool) returns (r: Result)
      modifies this
      ensures Abs() == Apply(old(Abs()), Add(sec, repeat))
      ensures r == Err(EINVAL) <==> sec < 0
      ensures r == Err(ENOSPC) <==> sec >= 0 && forall i :: 0 <= i < |old(jobs)| ==> old(jobs)[i].Holds?
      ensures r.Ok? ==>
        && r.pos < |jobs| && old(jobs)[r.pos] == Empty && (forall i :: 0 <= i < r.pos ==> old(jobs)[i].Holds?)
        && jobs == old(jobs)[r.pos := Holds(Job(Running, sec, sec, repeat, old(next)))]
      ensures !r.Ok? ==> jobs == old(jobs)
    {
      if sec < 0 {
        return Err(EINVAL);
      }
      var pos := GetFreePos();
      if pos < 0 {
        return Err(ENOSPC);
      }
      jobs := jobs[pos := Holds(Job(Running, sec, sec, repeat, next))];
      next := next + 1;
      return Ok(pos);
    }

    /** at_canceljob; success is `Ok` with the slot. */
    method CancelJob(id: int) returns (r: Result)
      modifies this
      ensures Abs() == Apply(old(Abs()), Cancel(id))
      ensures r == Err(EINVAL) <==> id < 0 || id >= |old(jobs)| || old(jobs)[id] == Empty
      ensures r.Ok? ==> InTable(old(Abs()), id) && jobs == old(jobs)[id := Holds(old(jobs)[id].job.(state := Canceled))]
      ensures !r.Ok? ==> jobs == old(jobs)
      ensures r.Ok? <==> InTable(old(Abs()), id) && old(jobs)[id].job.state == Running
      ensures r == Err(ECANCELED) <==> InTable(old(Abs()), id) && old(jobs)[id].job.state == Canceled
      ensures r == Err(EBUSY) <==> InTable(old(Abs()), id) && old(jobs)[id].job.state == Over
    {
      if id < 0 || id >= |jobs| || jobs[id] == Empty {
        return Err(EINVAL);
      }
      if jobs[id].job.state == Canceled {
        return Err(ECANCELED);
      }
      if jobs[id].job.state == Over {
        return Err(EBUSY);
      }
      jobs := jobs[id := Holds(jobs[id].job.(state := Canceled))];
      return Ok(id);
    }

    /** at_waitjob, up to the pause or the return. A repeating job is refused, even a cancelled one. */
    method WaitJob(id: int) returns (r: WaitResult)
      modifies this
      ensures Abs() == Apply(old(Abs()), Wait(id))
      ensures r == Refused(EINVAL) <==> id < 0 || id >= |old(jobs)| || old(jobs)[id] == Empty
      ensures r == Freed ==> InTable(old(Abs()), id) && jobs == old(jobs)[id := Empty]
      ensures r != Freed ==> jobs == old(jobs)
      ensures r == Refused(EBUSY) <==> InTable(old(Abs()), id) && old(jobs)[id].job.repeat
      ensures r == StillRunning <==>
        InTable(old(Abs()), id) && !old(jobs)[id].job.repeat && old(jobs)[id].job.state == Running
    {
      if id < 0 || id >= |jobs| || jobs[id] == Empty {
        return Refused(EINVAL);
      }
      if jobs[id].job.repeat {
        return Refused(EBUSY);
      }
      if jobs[id].job.state == Running {
        return StillRunning;
      }
      jobs := jobs[id := Empty];
      return Freed;
    }
  }

  // ----- runs

  function After(st: State, ops: seq<Op>): State
    decreases |ops|
  {
    if ops == [] then st else After(Apply(st, ops[0]), ops[1..])
  }

  /** Kernel ticks among the operations. */
  function Ticks(ops: seq<Op>): nat {
    if ops == [] then 0 else (if ops[0] == Tick(true) then 1 else 0) + Ticks(ops[1..])
  }

  /** How often the job with this serial number has fired. */
  function FiredCount(st: State, serial: nat): nat {
    multiset(st.fired)[serial]
  }

  /** Serial numbers are never reused. */
  ghost predicate Inv(st: State) {
    && (forall i :: 0 <= i < |st.jobs| && st.jobs[i].Holds? ==> st.jobs[i].job.serial < st.next)
    && (forall i, k :: 0 <= i < k < |st.jobs| && st.jobs[i].Holds? && st.jobs[k].Holds? ==>
          st.jobs[i].job.serial != st.jobs[k].job.serial)
  }

  lemma ApplyKeepsInv(st: State, op: Op)
    requires Inv(st)
    ensures Inv(Apply(st, op)) && |Apply(st, op).jobs| == |st.jobs|
  {
    if op == Tick(true) {
      var jobs' := Apply(st, op).jobs;
      assert forall i :: 0 <= i < |st.jobs| ==> jobs'[i].Holds? == st.jobs[i].Holds? &&
                                                (jobs'[i].Holds? ==> jobs'[i].job.serial == st.jobs[i].job.serial);
    }
  }

  /** From an empty table on, whatever is called. */
  lemma {:induction false} AfterKeepsInv(st: State, ops: seq<Op>)
    requires Inv(st)
    ensures Inv(After(st, ops)) && |After(st, ops).jobs| == |st.jobs|
    decreases |ops|
  {
    if ops != [] {
      ApplyKeepsInv(st, ops[0]);
      AfterKeepsInv(Apply(st, ops[0]), ops[1..]);
    }
  }

  /** A tick logs exactly the jobs that are due, once each. */
  lemma {:induction false} TickLogCount(jobs: seq<Slot>, serial: nat)
    requires forall i, k :: 0 <= i < k < |jobs| && jobs[i].Holds? && jobs[k].Holds? ==>
               jobs[i].job.serial != jobs[k].job.serial
    ensures multiset(TickLog(jobs))[serial] ==
            if exists i :: 0 <= i < |jobs| && Fires(jobs[i]) && jobs[i].job.serial == serial then 1 else 0
  {
    if jobs != [] {
      var rest := jobs[1..];
      assert forall i :: 0 <= i < |rest| ==> rest[i] == jobs[i + 1];
      assert forall i :: 0 < i < |jobs| ==> jobs[i] == rest[i - 1];
      TickLogCount(rest, serial);
    }
  }

  /** Callbacks run in slot order: what a tick logs for a table is what it logs for the slots before any point, then
  what it logs for those after it; and one slot logs its own job, if due. */
  lemma {:induction false} TickLogOrder(before: seq<Slot>, after: seq<Slot>)
    ensures TickLog(before + after) == TickLog(before) + TickLog(after)
    ensures forall s ::
      TickLog([s]) == if s.Holds? && s.job.state == Running && s.job.remain == 1 then [s.job.serial] else []
  {
    forall s ensures TickLog([s]) == if Fires(s) then [s.job.serial] else [] {
      assert [s][1..] == [];
    }
    if before == [] {
      assert before + after == after;
    } else {
      assert (before + after)[1..] == before[1..] + after;
      TickLogOrder(before[1..], after);
    }
  }

  /** One operation seen from slot `p`, which holds a job and is not the one being cancelled: a kernel tick moves the
  job on and logs it if due; nothing else touches it, except that a wait frees a finished one-shot job. */
  lemma SlotStep(st: State, op: Op, p: nat)
    requires Inv(st) && p < |st.jobs| && st.jobs[p].Holds? && op != Cancel(p)
    requires op == Wait(p) ==> st.jobs[p].job.repeat || st.jobs[p].job.state == Running
    ensures var st' := Apply(st, op); var tick := op == Tick(true);
            && |st'.jobs| == |st.jobs|
            && st'.jobs[p] == (if tick then TickSlot(st.jobs[p]) else st.jobs[p])
            && FiredCount(st', st.jobs[p].job.serial) ==
               FiredCount(st, st.jobs[p].job.serial) + (if tick && Fires(st.jobs[p]) then 1 else 0)
  {
    if op == Tick(true) {
      TickLogCount(st.jobs, st.jobs[p].job.serial);
      forall i | 0 <= i < |st.jobs| && Fires(st.jobs[i]) && st.jobs[i].job.serial == st.jobs[p].job.serial
        ensures i == p
      {
      }
    }
  }

  /** The job with this serial number is not running in any slot. */
  ghost predicate Dormant(st: State, serial: nat) {
    serial < st.next && forall i :: 0 <= i < |st.jobs| && st.jobs[i].Holds? && st.jobs[i].job.serial == serial ==>
      st.jobs[i].job.state != Running
  }

  /** A job that has been cancelled or has fired its one shot never fires again, whatever happens to its slot. */
  lemma {:induction false} DormantNeverFires(st: State, ops: seq<Op>, serial: nat)
    requires Inv(st) && Dormant(st, serial)
    ensures FiredCount(After(st, ops), serial) == FiredCount(st, serial)
    decreases |ops|
  {
    if ops != [] {
      ApplyKeepsInv(st, ops[0]);
      if ops[0] == Tick(true) { TickLogCount(st.jobs, serial); }
      DormantNeverFires(Apply(st, ops[0]), ops[1..], serial);
    }
  }

  /** A successful cancel silences the job for good. */
  lemma CancelSilences(st: State, p: nat, ops: seq<Op>)
    requires Inv(st) && p < |st.jobs| && Active(st.jobs[p])
    ensures var serial := st.jobs[p].job.serial;
            FiredCount(After(Apply(st, Cancel(p)), ops), serial) == FiredCount(st, serial)
  {
    ApplyKeepsInv(st, Cancel(p));
    DormantNeverFires(Apply(st, Cancel(p)), ops, st.jobs[p].job.serial);
  }

  /** The tick that completes a period. */
  lemma ElapsedStep(e: nat, sec: nat, k: nat)
    requires e + 1 == sec && k > 0
    ensures (k - 1) / sec + 1 == (e + k) / sec && (k - 1) % sec == (e + k) % sec
  {
    var q, r := (k - 1) / sec, (k - 1) % sec;
    assert e + k == sec * (q + 1) + r;
    DivUnique(e + k, sec, q + 1, r);
  }

  /** A repeating job of period `sec` that is `sec - remain` ticks into its period: after any operations that do not
  cancel it, with k kernel ticks among them, it is still running in its slot, has fired once per completed
  period and has the rest of the period left. Other slots do not matter. */
  lemma {:induction false} RepeatingJob(st: State, p: nat, ops: seq<Op>)
    requires Inv(st) && p < |st.jobs| && Active(st.jobs[p]) && st.jobs[p].job.repeat
    requires 1 <= st.jobs[p].job.remain <= st.jobs[p].job.sec && Cancel(p) !in ops
    ensures var j := st.jobs[p].job; var st' := After(st, ops);
            var elapsed := j.sec - j.remain + Ticks(ops);
            && p < |st'.jobs|
            && st'.jobs[p] == Holds(j.(remain := j.sec - elapsed % j.sec))
            && FiredCount(st', j.serial) == FiredCount(st, j.serial) + elapsed / j.sec
    decreases |ops|
  {
    var j := st.jobs[p].job;
    var e := j.sec - j.remain;
    if ops == [] {
      DivUnique(e, j.sec, 0, e);
    } else {
      var st' := Apply(st, ops[0]);
      SlotStep(st, ops[0], p);
      ApplyKeepsInv(st, ops[0]);
      assert ops[0] in ops;
      RepeatingJob(st', p, ops[1..]);
      if ops[0] != Tick(true) {
        assert st'.jobs[p] == st.jobs[p] && Ticks(ops) == Ticks(ops[1..]);
      } else if j.remain != 1 {
        assert st'.jobs[p].job.remain == j.remain - 1 && Ticks(ops) == 1 + Ticks(ops[1..]);
        assert j.sec - (j.remain - 1) + Ticks(ops[1..]) == e + Ticks(ops);
      } else {
        assert st'.jobs[p].job.remain == j.sec && Ticks(ops) == 1 + Ticks(ops[1..]);
        ElapsedStep(e, j.sec, Ticks(ops));
      }
    }
  }

  /** Right after it was added, for k kernel ticks: floor(k / sec) callbacks and sec - k mod sec left. */
  lemma RepeatingFromStart(st: State, p: nat, ops: seq<Op>)
    requires Inv(st) && p < |st.jobs| && Active(st.jobs[p]) && st.jobs[p].job.repeat
    requires st.jobs[p].job.remain == st.jobs[p].job.sec >= 1 && Cancel(p) !in ops
    ensures var j := st.jobs[p].job; var st' := After(st, ops);
            && p < |st'.jobs| && st'.jobs[p] == Holds(j.(remain := j.sec - Ticks(ops) % j.sec))
            && FiredCount(st', j.serial) == FiredCount(st, j.serial) + Ticks(ops) / j.sec
  {
    RepeatingJob(st, p, ops);
  }

  /** A one-shot job with `remain` ticks to go fires exactly once, at that tick, if it is not cancelled before. */
  lemma {:induction false} OneShotJob(st: State, p: nat, ops: seq<Op>)
    requires Inv(st) && p < |st.jobs| && Active(st.jobs[p]) && !st.jobs[p].job.repeat
    requires st.jobs[p].job.remain >= 1 && Cancel(p) !in ops
    ensures var j := st.jobs[p].job; var st' := After(st, ops);
            && (Ticks(ops) < j.remain ==>
                  && p < |st'.jobs| && st'.jobs[p] == Holds(j.(remain := j.remain - Ticks(ops)))
                  && FiredCount(st', j.serial) == FiredCount(st, j.serial))
            && (Ticks(ops) >= j.remain ==> FiredCount(st', j.serial) == FiredCount(st, j.serial) + 1)
    decreases |ops|
  {
    if ops != [] {
      var j := st.jobs[p].job;
      var st' := Apply(st, ops[0]);
      SlotStep(st, ops[0], p);
      ApplyKeepsInv(st, ops[0]);
      assert ops[0] in ops;
      if ops[0] == Tick(true) && j.remain == 1 {
        DormantNeverFires(st', ops[1..], j.serial);
      } else {
        OneShotJob(st', p, ops[1..]);
      }
    }
  }

  /** A job added with sec = 0 is accepted and never fires: its counter starts at 0 and only goes down. */
  lemma {:induction false} ZeroSecondsNeverFires(st: State, p: nat, ops: seq<Op>)
    requires Inv(st) && p < |st.jobs| && Active(st.jobs[p]) && st.jobs[p].job.remain <= 0
    ensures FiredCount(After(st, ops), st.jobs[p].job.serial) == FiredCount(st, st.jobs[p].job.serial)
    decreases |ops|
  {
    if ops != [] {
      ApplyKeepsInv(st, ops[0]);
      if ops[0] == Cancel(p) {
        CancelSilences(st, p, ops[1..]);
      } else {
        SlotStep(st, ops[0], p);
        ZeroSecondsNeverFires(Apply(st, ops[0]), p, ops[1..]);
      }
    }
  }

  /** For a job just added, left uncancelled while `sec` or more ticks pass: it fires if and only if `sec` is not 0. */
  lemma FiresIffPositive(st: State, p: nat, ops: seq<Op>)
    requires Inv(st) && p < |st.jobs| && Active(st.jobs[p]) && st.jobs[p].job.remain == st.jobs[p].job.sec
    requires Cancel(p) !in ops && Ticks(ops) >= st.jobs[p].job.sec
    ensures var j := st.jobs[p].job;
            FiredCount(After(st, ops), j.serial) > FiredCount(st, j.serial) <==> j.sec >= 1
  {
    var j := st.jobs[p].job;
    if j.sec == 0 {
      ZeroSecondsNeverFires(st, p, ops);
    } else if j.repeat {
      RepeatingJob(st, p, ops);
      AtLeastOne(Ticks(ops), j.sec);
    } else {
      OneShotJob(st, p, ops);
    }
  }

  lemma AtLeastOne(k: nat, sec: nat)
    requires k >= sec >= 1
    ensures k / sec >= 1
  {
    var q, r := k / sec, k % sec;
    assert k == sec * q + r;
    MulAtLeast(-q, sec);
  }

  // ----- slots are reused

  function Occupied(jobs: seq<Slot>): nat {
    if jobs == [] then 0 else (if jobs[0].Holds? then 1 else 0) + Occupied(jobs[1..])
  }

  lemma {:induction false} OccupiedUpdate(jobs: seq<Slot>, i: nat, s: Slot)
    requires i < |jobs|
    ensures Occupied(jobs[i := s]) ==
            Occupied(jobs) - (if jobs[i].Holds? then 1 else 0) + (if s.Holds? then 1 else 0)
  {
    if i > 0 {
      assert jobs[i := s][1..] == jobs[1..][i - 1 := s];
      OccupiedUpdate(jobs[1..], i - 1, s);
    } else {
      assert jobs[i := s][1..] == jobs[1..];
    }
  }

  lemma {:induction false} OccupiedSame(jobs: seq<Slot>, jobs': seq<Slot>)
    requires |jobs| == |jobs'| && forall i :: 0 <= i < |jobs| ==> jobs[i].Holds? == jobs'[i].Holds?
    ensures Occupied(jobs) == Occupied(jobs')
  {
    if jobs != [] { OccupiedSame(jobs[1..], jobs'[1..]); }
  }

  lemma {:induction false} OccupiedFull(jobs: seq<Slot>)
    ensures Occupied(jobs) <= |jobs|
    ensures Occupied(jobs) == |jobs| <==> forall i :: 0 <= i < |jobs| ==> jobs[i].Holds?
  {
    if jobs != [] {
      OccupiedFull(jobs[1..]);
      assert forall i :: 0 < i < |jobs| ==> jobs[i] == jobs[1..][i - 1];
      assert forall i :: 0 <= i < |jobs| - 1 ==> jobs[1..][i] == jobs[i + 1];
    }
  }

  /** An add that finds a free slot. */
  ghost predicate IsAccepted(st: State, op: Op) {
    op.Add? && op.sec >= 0 && exists i :: 0 <= i < |st.jobs| && st.jobs[i] == Empty
  }

  /** A wait for a one-shot job that has fired or has been cancelled. */
  predicate IsFreed(st: State, op: Op) {
    && op.Wait? && 0 <= op.id < |st.jobs| && st.jobs[op.id].Holds?
    && !st.jobs[op.id].job.repeat && st.jobs[op.id].job.state != Running
  }

  ghost function Accepted(st: State, ops: seq<Op>): nat
    decreases |ops|
  {
    if ops == [] then 0 else (if IsAccepted(st, ops[0]) then 1 else 0) + Accepted(Apply(st, ops[0]), ops[1..])
  }

  function Frees(st: State, ops: seq<Op>): nat
    decreases |ops|
  {
    if ops == [] then 0 else (if IsFreed(st, ops[0]) then 1 else 0) + Frees(Apply(st, ops[0]), ops[1..])
  }

  lemma OccupancyStep(st: State, op: Op)
    ensures Occupied(Apply(st, op).jobs) + (if IsFreed(st, op) then 1 else 0) ==
            Occupied(st.jobs) + (if IsAccepted(st, op) then 1 else 0)
  {
    var jobs' := Apply(st, op).jobs;
    match op
    case Tick(kernel) => OccupiedSame(st.jobs, jobs');
    case Add(sec, repeat) =>
      var pos := FreePos(st.jobs);
      if sec >= 0 && pos < |st.jobs| {
        OccupiedUpdate(st.jobs, pos, jobs'[pos]);
      }
    case Cancel(id) => OccupiedSame(st.jobs, jobs');
    case Wait(id) =>
      if IsFreed(st, op) {
        OccupiedUpdate(st.jobs, id, Empty);
      }
  }

  /** Over every sequence of operations the jobs in the table are those accepted and not yet waited for. */
  lemma {:induction false} OccupancyLaw(st: State, ops: seq<Op>)
    ensures Occupied(After(st, ops).jobs) + Frees(st, ops) == Occupied(st.jobs) + Accepted(st, ops)
    decreases |ops|
  {
    if ops != [] {
      OccupancyStep(st, ops[0]);
      OccupancyLaw(Apply(st, ops[0]), ops[1..]);
    }
  }

  /** From an empty table on, an add with sec >= 0 is refused exactly when as many jobs as the table has slots were
  accepted and not yet waited for: waiting for finished one-shot jobs keeps the table open. */
  lemma RefusedIff(st: State, ops: seq<Op>, sec: nat, repeat: bool)
    requires Inv(st) && forall i :: 0 <= i < |st.jobs| ==> st.jobs[i] == Empty
    ensures !IsAccepted(After(st, ops), Add(sec, repeat)) <==> Accepted(st, ops) == Frees(st, ops) + |st.jobs|
  {
    OccupancyLaw(st, ops);
    AfterKeepsInv(st, ops);
    OccupiedFull(After(st, ops).jobs);
    NoneOccupied(st.jobs);
  }

  lemma {:induction false} NoneOccupied(jobs: seq<Slot>)
    requires forall i :: 0 <= i < |jobs| ==> jobs[i] == Empty
    ensures Occupied(jobs) == 0
  {
    if jobs != [] { NoneOccupied(jobs[1..]); }
  }

  /** `k` kernel ticks in a row. */
  function TickRow(k: nat): seq<Op> {
    if k == 0 then [] else [Tick(true)] + TickRow(k - 1)
  }

  /** A one-shot job that is left alone long enough has stopped in its slot, and no other slot has been taken or
  freed. */
  lemma {:induction false} OneShotOver(st: State, p: nat, k: nat)
    requires p < |st.jobs| && Active(st.jobs[p]) && !st.jobs[p].job.repeat && 1 <= st.jobs[p].job.remain <= k
    ensures var jobs' := After(st, TickRow(k)).jobs;
            && |jobs'| == |st.jobs| && (forall i :: 0 <= i < |st.jobs| ==> jobs'[i].Holds? == st.jobs[i].Holds?)
            && jobs'[p] == Holds(st.jobs[p].job.(remain := 0, state := Over))
    decreases k
  {
    var row := TickRow(k);
    assert row[0] == Tick(true) && row[1..] == TickRow(k - 1);
    var st' := Apply(st, Tick(true));
    if st.jobs[p].job.remain == 1 {
      StoppedStays(st', p, k - 1);
    } else {
      OneShotOver(st', p, k - 1);
    }
  }

  lemma {:induction false} StoppedStays(st: State, p: nat, k: nat)
    requires p < |st.jobs| && st.jobs[p].Holds? && st.jobs[p].job.state != Running
    ensures var jobs' := After(st, TickRow(k)).jobs;
            && |jobs'| == |st.jobs| && (forall i :: 0 <= i < |st.jobs| ==> jobs'[i].Holds? == st.jobs[i].Holds?)
            && jobs'[p] == st.jobs[p]
    decreases k
  {
    if k > 0 {
      var row := TickRow(k);
      assert row[0] == Tick(true) && row[1..] == TickRow(k - 1);
      StoppedStays(Apply(st, Tick(true)), p, k - 1);
    }
  }

  lemma {:induction false} AfterConcat(st: State, ops: seq<Op>, more: seq<Op>)
    ensures After(st, ops + more) == After(After(st, ops), more)
    decreases |ops|
  {
    if ops == [] {
      assert ops + more == more;
    } else {
      assert (ops + more)[1..] == ops[1..] + more;
      AfterConcat(Apply(st, ops[0]), ops[1..], more);
    }
  }

  /** Add a one-shot job, let its time pass and wait for it: the slot it got is free again, and so are exactly the slots
  that were free before. So this can be repeated for ever, in a table with a single free slot. */
  lemma SlotComesBack(st: State, sec: nat, k: nat)
    requires FreePos(st.jobs) < |st.jobs| && 1 <= sec <= k
    ensures var p := FreePos(st.jobs);
            var st' := After(st, [Add(sec, false)] + TickRow(k) + [Wait(p)]);
            && |st'.jobs| == |st.jobs| && FreePos(st'.jobs) == p
            && forall i :: 0 <= i < |st.jobs| ==> st'.jobs[i].Holds? == st.jobs[i].Holds?
  {
    var p := FreePos(st.jobs);
    var added := Apply(st, Add(sec, false));
    OneShotOver(added, p, k);
    var ops := [Add(sec, false)] + TickRow(k);
    assert ops[1..] == TickRow(k);
    assert After(st, ops) == After(added, TickRow(k));
    AfterConcat(st, ops, [Wait(p)]);
    var over := After(st, ops);
    assert After(over, [Wait(p)]) == Apply(over, Wait(p)) by {
      assert [Wait(p)][1..] == [];
    }
    SameFreePos(st.jobs, Apply(over, Wait(p)).jobs);
  }

  lemma {:induction false} SameFreePos(jobs: seq<Slot>, jobs': seq<Slot>)
    requires |jobs| == |jobs'| && forall i :: 0 <= i < |jobs| ==> jobs[i].Holds? == jobs'[i].Holds?
    ensures FreePos(jobs) == FreePos(jobs')
  {
    if jobs != [] { SameFreePos(jobs[1..], jobs'[1..]); }
  }
}
