/** What holds over every run of the directory pool: no wakeup on the queue is lost, the totals are exact up to
what was dropped, and small trees are never dropped and never block. */
module DirPoolRuns {
  import opened CondVar
  import opened DirTree
  import opened DirPool
  import ForkJoin

  // ----- the invariant

  /** main sets `done` once, before joining, and workers leave only after that. */
  ghost predicate Phases(s: State) {
    && (s.done <==> s.main.Join? || s.main.Finished?)
    && (s.main.Seed? ==> s.queue == [] && s.dropped == [] && forall i :: 0 <= i < |s.ws| ==> s.ws[i].at.Dequeue?)
    && (forall i :: 0 <= i < |s.ws| && s.ws[i].at.Exited? ==> s.done)
    && (s.main.Finished? ==> forall i :: 0 <= i < |s.ws| ==> s.ws[i].at.Exited?)
  }

  predicate Awake(t: Thread<Pc>) {
    CanRun(t) && !t.at.Exited?
  }

  /** Once a worker has left, a queued path has an awake worker: in particular the last one leaves an empty queue. */
  ghost predicate Attended(s: State) {
    (exists i :: 0 <= i < |s.ws| && s.ws[i].at.Exited?) && s.queue != [] ==>
      exists i :: 0 <= i < |s.ws| && Awake(s.ws[i])
  }

  predicate WellPlaced(t: Thread<Pc>) {
    t.mode.Running? || (t.mode.cv == NOT_EMPTY && t.at.Dequeue?) || (t.mode.cv == NOT_FULL && t.at.Enqueue?)
  }

  /** If a worker sleeps on an empty queue then every queued path has a notified worker, and after `done` nobody
  sleeps there. */
  ghost predicate Wakeups(s: State) {
    && (forall i :: 0 <= i < |s.ws| ==> WellPlaced(s.ws[i]))
    && Covered(|s.queue|, s.ws, NOT_EMPTY)
    && (s.done ==> !SomeAsleep(s.ws, NOT_EMPTY))
  }

  /** The directories in a worker's hands: the one it reads, and the one it is about to queue. */
  function Load(pc: Pc): int {
    match pc
    case Scan(_, _) => 1
    case AddLines(_, _, _) => 1
    case Enqueue(_, _, _) => 2
    case _ => 0
  }

  /** The queued, held and dropped directories are the root or have been counted. */
  ghost predicate Seats(s: State) {
    |s.queue| + Total(s.ws, Load) + |s.dropped| + (if s.main.Seed? then 1 else 0) <= s.counts.dirs + 1
  }

  ghost predicate Inv(c: Config, s: State) {
    && Phases(s) && Wakeups(s) && Attended(s) && Seats(s)
    && Balance(c, s) == CountDir(c.root.path, c.root.node)
  }

  lemma WorkerKeepsPhases(c: Config, s: State, i: nat, s': State)
    requires Phases(s) && i < |s.ws| && WorkerStep(c, s, i, s')
    ensures Phases(s')
  {
    if !(s.ws[i].at.Dequeue? && s.queue == []) {
      assert !s'.ws[i].at.Exited?;
    }
  }

  lemma DequeueKeepsWakeups(s: State, i: nat, s': State)
    requires Wakeups(s) && i < |s.ws| && CanRun(s.ws[i]) && s.ws[i].at.Dequeue? && DequeueStep(s, i, s')
    ensures Wakeups(s')
  {
    if s.queue != [] {
      var t' := Thread(Running, Opened(s.queue[0]));
      CoveredRun(|s.queue|, s.ws, i, t', NOT_EMPTY);
      CoveredWakes(|s.queue| - 1, s.ws[i := t'], s'.ws, NOT_FULL, NOT_EMPTY);
      if s.done { WakesOther(s.ws[i := t'], s'.ws, NOT_FULL, NOT_EMPTY); }
    }
  }

  lemma EnqueueKeepsWakeups(c: Config, s: State, i: nat, s': State)
    requires Wakeups(s) && i < |s.ws| && CanRun(s.ws[i]) && s.ws[i].at.Enqueue?
    requires var pc := s.ws[i].at; EnqueueStep(c, s, i, pc.sub, pc.path, pc.items, s')
    ensures Wakeups(s')
  {
    var pc := s.ws[i].at;
    assert WellPlaced(s.ws[i]);
    if |s.queue| >= c.cap && !s.done {
      CoveredSleepElsewhere(|s.queue|, s.ws, i, Thread(Asleep(NOT_FULL), pc), NOT_EMPTY);
    } else {
      var t' := Thread(Running, Scan(pc.path, pc.items));
      CoveredRun(|s.queue|, s.ws, i, t', NOT_EMPTY);
      if |s.queue| < c.cap {
        CoveredSignal(|s.queue|, s.ws[i := t'], s'.ws, NOT_EMPTY);
      }
    }
  }

  lemma NextKeepsWakeups(c: Config, s: State, s': State)
    requires Wakeups(s) && Next(c, s, s')
    ensures Wakeups(s')
  {
    if MainStep(c, s, s') {
      if s.main.Seed? { CoveredSignal(|s.queue|, s.ws, s'.ws, NOT_EMPTY); }
    } else if i: nat :| i < |s.ws| && WorkerStep(c, s, i, s') {
      match s.ws[i].at
      case Dequeue => DequeueKeepsWakeups(s, i, s');
      case Enqueue(_, _, _) => EnqueueKeepsWakeups(c, s, i, s');
      case Scan(_, _) => RunKeepsWakeups(s, i, s');
      case AddLines(_, _, _) => RunKeepsWakeups(s, i, s');
    } else {
      var cv: nat :| Wakes(s.ws, s'.ws, cv);
      CoveredWakes(|s.queue|, s.ws, s'.ws, cv, NOT_EMPTY);
    }
  }

  lemma RunKeepsWakeups(s: State, i: nat, s': State)
    requires Wakeups(s) && i < |s.ws| && CanRun(s.ws[i]) && !s.ws[i].at.Dequeue?
    requires s'.queue == s.queue && s'.done == s.done && |s'.ws| == |s.ws|
    requires s'.ws == s.ws[i := s'.ws[i]] && s'.ws[i].mode == Running
    ensures Wakeups(s')
  {
    assert WellPlaced(s.ws[i]);
    CoveredRun(|s.queue|, s.ws, i, s'.ws[i], NOT_EMPTY);
  }

  lemma NextKeepsPhases(c: Config, s: State, s': State)
    requires Phases(s) && Next(c, s, s')
    ensures Phases(s')
  {
    if MainStep(c, s, s') {
    } else if i: nat :| i < |s.ws| && WorkerStep(c, s, i, s') {
      WorkerKeepsPhases(c, s, i, s');
    } else {
      var cv: nat :| Wakes(s.ws, s'.ws, cv);
      assert forall i :: 0 <= i < |s.ws| ==> s'.ws[i].at == s.ws[i].at;
    }
  }

  /** After `done` a worker that goes on stays awake, or leaves because the queue is empty. */
  lemma WorkerKeepsAttended(c: Config, s: State, i: nat, s': State)
    requires Phases(s) && i < |s.ws| && WorkerStep(c, s, i, s')
    ensures Attended(s')
  {
    if s'.queue != [] && s.done {
      assert Awake(s'.ws[i]);
    }
  }

  lemma NextKeepsAttended(c: Config, s: State, s': State)
    requires Phases(s) && Attended(s) && Next(c, s, s')
    ensures Attended(s')
  {
    if MainStep(c, s, s') {
    } else if i: nat :| i < |s.ws| && WorkerStep(c, s, i, s') {
      WorkerKeepsAttended(c, s, i, s');
    } else if i :| 0 <= i < |s.ws| && Awake(s.ws[i]) {
      assert Awake(s'.ws[i]);
    }
  }

  lemma DequeueKeepsSeats(s: State, i: nat, s': State)
    requires Seats(s) && i < |s.ws| && s.ws[i].at.Dequeue? && DequeueStep(s, i, s')
    ensures Seats(s')
  {
    if s.queue == [] {
      var t' := s'.ws[i];
      assert s'.ws == s.ws[i := t'];
      TotalUpdate(s.ws, i, t', Load);
    } else {
      var t' := Thread(Running, Opened(s.queue[0]));
      TotalUpdate(s.ws, i, t', Load);
      TotalWakes(s.ws[i := t'], s'.ws, NOT_FULL, Load);
    }
  }

  lemma EnqueueKeepsSeats(c: Config, s: State, i: nat, s': State)
    requires Seats(s) && i < |s.ws| && s.ws[i].at.Enqueue?
    requires var pc := s.ws[i].at; EnqueueStep(c, s, i, pc.sub, pc.path, pc.items, s')
    ensures Seats(s')
  {
    var pc := s.ws[i].at;
    var t' := Thread(Running, Scan(pc.path, pc.items));
    if |s.queue| >= c.cap && !s.done {
      TotalUpdate(s.ws, i, Thread(Asleep(NOT_FULL), pc), Load);
    } else {
      TotalUpdate(s.ws, i, t', Load);
      if |s.queue| < c.cap { TotalWakes(s.ws[i := t'], s'.ws, NOT_EMPTY, Load); }
    }
  }

  /** A worker that reads or counts takes a directory in hand only when it counts one. */
  lemma CountingKeepsSeats(s: State, i: nat, s': State)
    requires Seats(s) && i < |s.ws| && |s'.ws| == |s.ws| && s'.ws == s.ws[i := s'.ws[i]]
    requires s'.queue == s.queue && s'.dropped == s.dropped && s'.main == s.main
    requires s'.counts.dirs - s.counts.dirs >= Load(s'.ws[i].at) - Load(s.ws[i].at)
    ensures Seats(s')
  {
    TotalUpdate(s.ws, i, s'.ws[i], Load);
  }

  lemma NextKeepsSeats(c: Config, s: State, s': State)
    requires Seats(s) && Next(c, s, s')
    ensures Seats(s')
  {
    if MainStep(c, s, s') {
      if s.main.Seed? || s.main.SetDone? { TotalWakes(s.ws, s'.ws, NOT_EMPTY, Load); }
    } else if i: nat :| i < |s.ws| && WorkerStep(c, s, i, s') {
      match s.ws[i].at
      case Dequeue => DequeueKeepsSeats(s, i, s');
      case Enqueue(_, _, _) => EnqueueKeepsSeats(c, s, i, s');
      case Scan(_, _) => CountingKeepsSeats(s, i, s');
      case AddLines(_, _, _) => CountingKeepsSeats(s, i, s');
    } else {
      var cv: nat :| Wakes(s.ws, s'.ws, cv);
      TotalWakes(s.ws, s'.ws, cv, Load);
    }
  }

  lemma NextKeepsInv(c: Config, s: State, s': State)
    requires Inv(c, s) && Next(c, s, s')
    ensures Inv(c, s')
  {
    NextKeepsBalance(c, s, s');
    NextKeepsPhases(c, s, s');
    NextKeepsWakeups(c, s, s');
    NextKeepsAttended(c, s, s');
    NextKeepsSeats(c, s, s');
  }

  lemma BothZero(a: Counts, b: Counts, sum: Counts)
    requires sum == Plus(a, b)
    ensures a == ZERO && b == ZERO ==> sum == ZERO
  {
    PlusZero(a);
  }

  lemma {:induction false} EmptyHandsFirst(ws: seq<Thread<Pc>>)
    requires ws != [] && PcWorth(ws[0].at) == ZERO && WorkersWorth(ws[1..]) == ZERO
    ensures WorkersWorth(ws) == ZERO
  {
    BothZero(PcWorth(ws[0].at), WorkersWorth(ws[1..]), WorkersWorth(ws));
  }

  lemma {:induction false} EmptyHands(ws: seq<Thread<Pc>>)
    requires forall i :: 0 <= i < |ws| ==> PcWorth(ws[i].at) == ZERO
    ensures WorkersWorth(ws) == ZERO
  {
    if ws != [] {
      var rest := ws[1..];
      assert forall i :: 0 <= i < |rest| ==> rest[i] == ws[i + 1];
      EmptyHands(rest);
      assert PcWorth(ws[0].at) == ZERO;
      EmptyHandsFirst(ws);
    }
  }

  lemma StartSum(counts: Counts, q: Counts, w: Counts, d: Counts, all: Counts)
    requires counts == ZERO && q == ZERO && w == ZERO && d == ZERO
    ensures Plus(Plus(counts, q), Plus(w, Plus(d, all))) == all
  {
    PlusZero(all);
    PlusZero(ZERO);
    assert Plus(d, all) == all && Plus(w, all) == all;
    assert Plus(counts, q) == ZERO;
  }

  lemma InitBalance(c: Config, s: State)
    requires Init(s)
    ensures Balance(c, s) == CountDir(c.root.path, c.root.node)
  {
    EmptyHands(s.ws);
    StartSum(s.counts, TasksWorth(s.queue), WorkersWorth(s.ws), TasksWorth(s.dropped),
             CountDir(c.root.path, c.root.node));
  }

  lemma InitRest(s: State)
    requires Init(s)
    ensures Phases(s) && Wakeups(s) && Attended(s) && Seats(s)
  {
    TotalZero(s.ws, Load);
  }

  lemma InitInv(c: Config, s: State)
    requires Init(s)
    ensures Inv(c, s)
  {
    InitBalance(c, s);
    InitRest(s);
  }

  /** Every run, any tree, any number of workers, any capacity, any schedule: counted + queued + held + dropped is
  the count of the tree, and no wakeup on the queue is lost, whenever `done` is set. */
  lemma {:induction false} RunKeepsInv(c: Config, run: seq<State>, k: nat)
    requires IsRun(c, run) && Init(run[0]) && k < |run|
    ensures Inv(c, run[k])
  {
    if k == 0 {
      InitInv(c, run[0]);
    } else {
      RunKeepsInv(c, run, k - 1);
      NextKeepsInv(c, run[k - 1], run[k]);
    }
  }

  // ----- wakeups of those who wait for room

  /** If a worker sleeps because the queue was full then every free place has a notified worker. */
  ghost predicate Room(c: Config, s: State) {
    |s.queue| <= c.cap && Covered(c.cap - |s.queue|, s.ws, NOT_FULL)
  }

  lemma DequeueKeepsRoom(c: Config, s: State, i: nat, s': State)
    requires Room(c, s) && i < |s.ws| && CanRun(s.ws[i]) && s.ws[i].mode != Notified(NOT_FULL) && DequeueStep(s, i, s')
    ensures Room(c, s')
  {
    var units := c.cap - |s.queue|;
    if s.queue != [] {
      var t' := Thread(Running, Opened(s.queue[0]));
      CoveredRun(units, s.ws, i, t', NOT_FULL);
      CoveredSignal(units, s.ws[i := t'], s'.ws, NOT_FULL);
    } else if s.done {
      CoveredRun(units, s.ws, i, Thread(Running, Exited), NOT_FULL);
    } else {
      CoveredSleepElsewhere(units, s.ws, i, Thread(Asleep(NOT_EMPTY), Dequeue), NOT_FULL);
    }
  }

  lemma EnqueueKeepsRoom(c: Config, s: State, i: nat, s': State)
    requires Room(c, s) && i < |s.ws| && CanRun(s.ws[i]) && s.ws[i].at.Enqueue?
    requires var pc := s.ws[i].at; EnqueueStep(c, s, i, pc.sub, pc.path, pc.items, s')
    ensures Room(c, s')
  {
    var units, t' := c.cap - |s.queue|, Thread(Running, Scan(s.ws[i].at.path, s.ws[i].at.items));
    if units > 0 {
      CoveredRun(units, s.ws, i, t', NOT_FULL);
      CoveredWakes(units - 1, s.ws[i := t'], s'.ws, NOT_EMPTY, NOT_FULL);
    }
  }

  lemma NextKeepsRoom(c: Config, s: State, s': State)
    requires Wakeups(s) && Room(c, s) && Next(c, s, s')
    ensures Room(c, s')
  {
    var units := c.cap - |s.queue|;
    if MainStep(c, s, s') {
      if s.main.Seed? || s.main.SetDone? { CoveredWakes(units, s.ws, s'.ws, NOT_EMPTY, NOT_FULL); }
    } else if i: nat :| i < |s.ws| && WorkerStep(c, s, i, s') {
      assert WellPlaced(s.ws[i]);
      match s.ws[i].at
      case Dequeue => DequeueKeepsRoom(c, s, i, s');
      case Enqueue(_, _, _) => EnqueueKeepsRoom(c, s, i, s');
      case Scan(_, _) => CoveredRun(units, s.ws, i, s'.ws[i], NOT_FULL);
      case AddLines(_, _, _) => CoveredRun(units, s.ws, i, s'.ws[i], NOT_FULL);
    } else {
      var cv: nat :| Wakes(s.ws, s'.ws, cv);
      CoveredWakes(units, s.ws, s'.ws, cv, NOT_FULL);
    }
  }

  lemma {:induction false} RunKeepsRoom(c: Config, run: seq<State>, k: nat)
    requires IsRun(c, run) && Init(run[0]) && k < |run|
    ensures Room(c, run[k])
  {
    if k > 0 {
      RunKeepsRoom(c, run, k - 1);
      RunKeepsInv(c, run, k - 1);
      NextKeepsRoom(c, run[k - 1], run[k]);
    }
  }

  /** While nobody sleeps for want of room, a queued path never finds every live worker asleep. */
  lemma QueuedMeansAwake(c: Config, run: seq<State>, k: nat) returns (i: nat)
    requires IsRun(c, run) && Init(run[0]) && k < |run| && run[k].queue != [] && |run[k].ws| > 0
    requires !SomeAsleep(run[k].ws, NOT_FULL)
    ensures i < |run[k].ws| && CanRun(run[k].ws[i]) && !run[k].ws[i].at.Exited?
  {
    RunKeepsInv(c, run, k);
    var ws := run[k].ws;
    if SomeAsleep(ws, NOT_EMPTY) {
      i := SomeNotified(ws, NOT_EMPTY);
      assert WellPlaced(ws[i]);
    } else {
      var j: nat :| j < |ws| && !ws[j].at.Exited?;
      assert WellPlaced(ws[j]);
      i := j;
    }
  }

  // ----- the totals of a finished run

  lemma PartOfSum(a: Counts, b: Counts, sum: Counts, part: Counts)
    requires sum == Plus(a, b) && (AtMost(part, a) || AtMost(part, b))
    ensures AtMost(part, sum)
  {
  }

  lemma AtMostZero(part: Counts)
    requires AtMost(part, ZERO)
    ensures part == ZERO
  {
  }

  lemma {:induction false} TaskOfTasks(ts: seq<Task>, k: nat)
    requires k < |ts|
    ensures AtMost(CountDir(ts[k].path, ts[k].node), TasksWorth(ts))
  {
    var part := CountDir(ts[k].path, ts[k].node);
    if k > 0 {
      TaskOfTasks(ts[1..], k - 1);
      assert ts[1..][k - 1] == ts[k];
    }
    PartOfSum(CountDir(ts[0].path, ts[0].node), TasksWorth(ts[1..]), TasksWorth(ts), part);
  }

  lemma {:induction false} ZeroSum(ts: seq<Task>)
    requires forall k :: 0 <= k < |ts| ==> CountDir(ts[k].path, ts[k].node) == ZERO
    ensures TasksWorth(ts) == ZERO
  {
    if ts != [] {
      var rest := ts[1..];
      assert forall k :: 0 <= k < |rest| ==> rest[k] == ts[k + 1];
      ZeroSum(rest);
      PlusZero(CountDir(ts[0].path, ts[0].node));
    }
  }

  lemma ZeroWorth(ts: seq<Task>)
    ensures TasksWorth(ts) == ZERO <==> forall k :: 0 <= k < |ts| ==> CountDir(ts[k].path, ts[k].node) == ZERO
  {
    if TasksWorth(ts) == ZERO {
      forall k | 0 <= k < |ts| ensures CountDir(ts[k].path, ts[k].node) == ZERO {
        TaskOfTasks(ts, k);
        AtMostZero(CountDir(ts[k].path, ts[k].node));
      }
    }
    if forall k :: 0 <= k < |ts| ==> CountDir(ts[k].path, ts[k].node) == ZERO { ZeroSum(ts); }
  }

  /** When main prints, the totals plus the dropped subtrees are the count of the tree; so the totals are right
  exactly when every dropped directory had nothing in it to count. That `done` may have been set while workers
  were still producing does not matter. */
  lemma FinishedTotals(c: Config, run: seq<State>)
    requires IsRun(c, run) && Init(run[0]) && |run[0].ws| > 0 && run[|run| - 1].main.Finished?
    ensures var s := run[|run| - 1];
            && Plus(s.counts, TasksWorth(s.dropped)) == CountDir(c.root.path, c.root.node)
            && (s.counts == CountDir(c.root.path, c.root.node) <==>
                forall k :: 0 <= k < |s.dropped| ==> CountDir(s.dropped[k].path, s.dropped[k].node) == ZERO)
  {
    RunKeepsInv(c, run, |run| - 1);
    WorkersKept(c, run, |run| - 1);
    FinishedState(c, run[|run| - 1], CountDir(c.root.path, c.root.node));
    ZeroWorth(run[|run| - 1].dropped);
  }

  lemma FinishedState(c: Config, s: State, all: Counts)
    requires s.queue == [] && s.main.Finished? && Balance(c, s) == all
    requires forall i :: 0 <= i < |s.ws| ==> s.ws[i].at.Exited?
    ensures Plus(s.counts, TasksWorth(s.dropped)) == all
    ensures s.counts == all <==> TasksWorth(s.dropped) == ZERO
  {
    forall i | 0 <= i < |s.ws| ensures PcWorth(s.ws[i].at) == ZERO {
      assert s.ws[i].at.Exited?;
    }
    EmptyHands(s.ws);
    var q, w, d := TasksWorth(s.queue), WorkersWorth(s.ws), TasksWorth(s.dropped);
    assert Plus(Plus(s.counts, q), Plus(w, Plus(d, ZERO))) == all;
    FinishedBalance(s.counts, q, w, d, all);
  }

  lemma NothingDropped(counts: Counts, dropped: Counts)
    requires Plus(counts, dropped) == counts
    ensures dropped == ZERO
  {
    assert counts.files == counts.files + dropped.files;
    assert counts.dirs == counts.dirs + dropped.dirs;
    assert counts.lines == counts.lines + dropped.lines;
  }

  lemma FinishedBalance(counts: Counts, queued: Counts, held: Counts, dropped: Counts, all: Counts)
    requires Plus(Plus(counts, queued), Plus(held, Plus(dropped, ZERO))) == all && queued == ZERO && held == ZERO
    ensures Plus(counts, dropped) == all && (counts == all <==> dropped == ZERO)
  {
    PlusZero(counts);
    PlusZero(dropped);
    assert Plus(counts, dropped) == all;
    if counts == all { NothingDropped(counts, dropped); }
  }

  lemma {:induction false} WorkersKept(c: Config, run: seq<State>, k: nat)
    requires IsRun(c, run) && k < |run|
    ensures |run[k].ws| == |run[0].ws|
  {
    if k > 0 {
      WorkersKept(c, run, k - 1);
      StepKeepsWorkers(c, run[k - 1], run[k]);
    }
  }

  lemma StepKeepsWorkers(c: Config, s: State, s': State)
    requires Next(c, s, s')
    ensures |s'.ws| == |s.ws|
  {
  }

  // ----- trees that fit the queue

  /** The tree has no more subdirectories than the queue has places. */
  predicate Fits(c: Config) {
    c.cap > 0 && CountDir(c.root.path, c.root.node).dirs <= c.cap
  }

  /** Nothing was dropped and nobody ever waited for room. */
  ghost predicate Unblocked(s: State) {
    && s.dropped == []
    && forall i :: 0 <= i < |s.ws| ==> s.ws[i].mode.Running? || s.ws[i].mode.cv == NOT_EMPTY
  }

  /** What any one worker holds is part of what all of them hold. */
  lemma {:induction false} LoadOf(ws: seq<Thread<Pc>>, i: nat)
    requires i < |ws|
    ensures Load(ws[i].at) <= Total(ws, Load)
  {
    TotalZero(ws[1..], Load);
    if i > 0 {
      LoadOf(ws[1..], i - 1);
    }
  }

  lemma RoomForHeld(c: Config, s: State, i: nat)
    requires Inv(c, s) && Fits(c) && i < |s.ws| && s.ws[i].at.Enqueue?
    ensures |s.queue| < c.cap
  {
    LoadOf(s.ws, i);
    assert s.counts.dirs <= Balance(c, s).dirs;
  }

  lemma WorkerKeepsUnblocked(c: Config, s: State, i: nat, s': State)
    requires Unblocked(s) && i < |s.ws| && WorkerStep(c, s, i, s')
    requires s.ws[i].at.Enqueue? ==> |s.queue| < c.cap
    ensures Unblocked(s')
  {
  }

  lemma MainKeepsUnblocked(c: Config, s: State, s': State)
    requires Unblocked(s) && MainStep(c, s, s')
    ensures Unblocked(s')
  {
  }

  lemma NextKeepsUnblocked(c: Config, s: State, s': State)
    requires Inv(c, s) && Fits(c) && Unblocked(s) && Next(c, s, s')
    ensures Unblocked(s')
  {
    if MainStep(c, s, s') {
      MainKeepsUnblocked(c, s, s');
    } else if i: nat :| i < |s.ws| && WorkerStep(c, s, i, s') {
      if s.ws[i].at.Enqueue? { RoomForHeld(c, s, i); }
      WorkerKeepsUnblocked(c, s, i, s');
    }
  }

  /** In every run over a tree that fits, no directory is dropped and no worker waits for room. */
  lemma {:induction false} FittingTree(c: Config, run: seq<State>, k: nat)
    requires IsRun(c, run) && Init(run[0]) && k < |run| && Fits(c)
    ensures Inv(c, run[k]) && Unblocked(run[k])
  {
    if k == 0 {
      InitInv(c, run[0]);
    } else {
      FittingTree(c, run, k - 1);
      FittingStep(c, run[k - 1], run[k]);
    }
  }

  lemma FittingStep(c: Config, s: State, s': State)
    requires Inv(c, s) && Fits(c) && Unblocked(s) && Next(c, s, s')
    ensures Inv(c, s') && Unblocked(s')
  {
    NextKeepsInv(c, s, s');
    NextKeepsUnblocked(c, s, s');
  }

  /** Hence the totals of every finished run over such a tree are right. */
  lemma FittingTotals(c: Config, run: seq<State>)
    requires IsRun(c, run) && Init(run[0]) && |run[0].ws| > 0 && run[|run| - 1].main.Finished? && Fits(c)
    ensures run[|run| - 1].counts == CountDir(c.root.path, c.root.node)
  {
    FittingTree(c, run, |run| - 1);
    FinishedTotals(c, run);
  }

  // ----- the three programs

  /** For every tree, every finished run of the pool that dropped nothing (over a tree that fits: every finished run)
  and every fork-join schedule that returns give the same totals; the sequential recursion gives them too exactly when
  no live link is in its way (and it prints exactly when every source file it meets can be opened and every stream is
  closed once, see `DirTree.RunSequential`). */
  lemma ThreeProgramsAgree(c: Config, run: seq<State>, schedule: seq<seq<nat>>)
    requires IsRun(c, run) && Init(run[0]) && |run[0].ws| > 0 && run[|run| - 1].main.Finished?
    requires run[|run| - 1].dropped == [] || Fits(c)
    requires ForkJoin.Run(ForkJoin.Start(c.root.path, c.root.node), schedule).Returned?
    ensures var r := ForkJoin.Run(ForkJoin.Start(c.root.path, c.root.node), schedule).result;
            var counts := run[|run| - 1].counts;
            var dir := Strip(c.root.node);
            && (dir.Directory? ==> r == ForkJoin.Value(counts))
            && (!dir.Directory? ==> r == ForkJoin.Null && counts == ZERO)
            && (dir.Directory? ==> (SeqDir(c.root.path, dir) == counts <==> NoLiveLinks(dir)))
  {
    if Fits(c) { FittingTree(c, run, |run| - 1); }
    FinishedTotals(c, run);
    ForkJoin.ForkJoinCounts(c.root.path, c.root.node, schedule);
    StripCounts(c.root.path, c.root.node);
    LinksOnlyAdd(c.root.path, Strip(c.root.node));
  }
}
