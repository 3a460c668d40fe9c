/** Progress of the directory pool: every state of every run can be continued to the end or to a jam, a jam is for
good, and small trees never jam. */
module DirPoolProgress {
  import opened CondVar
  import opened DirTree
  import opened DirPool
  import opened DirPoolRuns
  import Runs

  // ----- a measure of the work left

  function NodeCost(n: Node): (r: nat)
    ensures r >= 3
    decreases n
  {
    if n.Directory? then 3 + ItemsCost(n.items) else if n.Link? then NodeCost(n.target) else 3
  }

  function ItemsCost(items: seq<Item>): nat
    decreases items
  {
    if items == [] then 0 else 4 + NodeCost(items[0].node) + ItemsCost(items[1..])
  }

  function PcCost(pc: Pc): int {
    match pc
    case Dequeue => 1
    case Scan(_, items) => 2 + ItemsCost(items)
    case AddLines(_, _, items) => 3 + ItemsCost(items)
    case Enqueue(sub, _, items) => 4 + NodeCost(sub.node) + ItemsCost(items)
    case Exited => 0
  }

  function TasksCost(ts: seq<Task>): nat {
    if ts == [] then 0 else NodeCost(ts[0].node) + TasksCost(ts[1..])
  }

  function Cost(s: State): nat {
    TotalZero(s.ws, PcCost);
    TasksCost(s.queue) + Total(s.ws, PcCost) + RunnableCount(s.ws)
  }

  function Rank(m: Main): nat {
    match m case Seed => 5 case Check => 4 case Recheck => 3 case SetDone => 2 case Join => 1 case Finished => 0
  }

  lemma {:induction false} TasksCostSnoc(ts: seq<Task>, t: Task)
    ensures TasksCost(ts + [t]) == TasksCost(ts) + NodeCost(t.node)
  {
    if ts != [] {
      assert (ts + [t])[1..] == ts[1..] + [t];
      TasksCostSnoc(ts[1..], t);
    } else {
      assert (ts + [t])[1..] == [];
    }
  }

  lemma {:induction false} StripCost(n: Node)
    ensures NodeCost(Strip(n)) == NodeCost(n)
  {
    if n.Link? { StripCost(n.target); }
  }

  lemma EntryCost(path: string, items: seq<Item>)
    requires items != []
    ensures PcCost(EntryEffect(path, items).1) < 2 + ItemsCost(items)
  {
    StripCost(items[0].node);
  }

  // ----- one step forward

  /** Worker `i` takes its step, with a signal waking at most one sleeper. */
  lemma Advance(c: Config, s: State, i: nat) returns (s': State)
    requires i < |s.ws| && CanRun(s.ws[i]) && !s.ws[i].at.Exited?
    ensures WorkerStep(c, s, i, s') && s'.main == s.main && |s'.ws| == |s.ws| && Cost(s') < Cost(s)
  {
    match s.ws[i].at
    case Dequeue => s' := AdvanceDequeue(s, i);
    case Scan(path, items) =>
      if items == [] {
        s' := s.(ws := s.ws[i := Thread(Running, Dequeue)]);
        Move(s, i, Dequeue, s');
      } else {
        EntryCost(path, items);
        var effect := EntryEffect(path, items);
        s' := s.(counts := Plus(s.counts, effect.0), ws := s.ws[i := Thread(Running, effect.1)]);
        Move(s, i, effect.1, s');
      }
    case AddLines(lines, path, items) =>
      s' := s.(counts := Plus(s.counts, Counts(0, 0, lines)), ws := s.ws[i := Thread(Running, Scan(path, items))]);
      Move(s, i, Scan(path, items), s');
    case Enqueue(sub, path, items) =>
      s' := AdvanceEnqueue(c, s, i);
  }

  lemma Move(s: State, i: nat, next: Pc, s': State)
    requires i < |s.ws| && CanRun(s.ws[i]) && PcCost(next) < PcCost(s.ws[i].at)
    requires s'.queue == s.queue && s'.ws == s.ws[i := Thread(Running, next)]
    ensures Cost(s') < Cost(s)
  {
    TotalUpdate(s.ws, i, Thread(Running, next), PcCost);
    RunnableUpdate(s.ws, i, Thread(Running, next));
  }

  /** A worker goes to sleep where it is. */
  lemma Sleep(s: State, i: nat, cv: nat, s': State)
    requires i < |s.ws| && CanRun(s.ws[i]) && s' == s.(ws := s.ws[i := Thread(Asleep(cv), s.ws[i].at)])
    ensures Cost(s') < Cost(s)
  {
    TotalUpdate(s.ws, i, Thread(Asleep(cv), s.ws[i].at), PcCost);
    RunnableUpdate(s.ws, i, Thread(Asleep(cv), s.ws[i].at));
  }

  lemma AdvanceDequeue(s: State, i: nat) returns (s': State)
    requires i < |s.ws| && CanRun(s.ws[i]) && s.ws[i].at.Dequeue?
    ensures DequeueStep(s, i, s') && s'.main == s.main && |s'.ws| == |s.ws| && Cost(s') < Cost(s)
  {
    if s.queue != [] {
      var t' := Thread(Running, Opened(s.queue[0]));
      var ws' := WakeOne(s.ws[i := t'], NOT_FULL);
      s' := s.(queue := s.queue[1..], ws := ws');
      StripCost(s.queue[0].node);
      TotalUpdate(s.ws, i, t', PcCost);
      RunnableUpdate(s.ws, i, t');
      TotalWakes(s.ws[i := t'], ws', NOT_FULL, PcCost);
    } else if s.done {
      s' := s.(ws := s.ws[i := Thread(Running, Exited)]);
      Move(s, i, Exited, s');
    } else {
      s' := s.(ws := s.ws[i := Thread(Asleep(NOT_EMPTY), Dequeue)]);
      Sleep(s, i, NOT_EMPTY, s');
    }
  }

  lemma AdvanceEnqueue(c: Config, s: State, i: nat) returns (s': State)
    requires i < |s.ws| && CanRun(s.ws[i]) && s.ws[i].at.Enqueue?
    ensures var pc := s.ws[i].at; EnqueueStep(c, s, i, pc.sub, pc.path, pc.items, s')
    ensures s'.main == s.main && |s'.ws| == |s.ws| && Cost(s') < Cost(s)
  {
    var pc := s.ws[i].at;
    var next := Scan(pc.path, pc.items);
    if |s.queue| < c.cap {
      var t' := Thread(Running, next);
      var ws' := WakeOne(s.ws[i := t'], NOT_EMPTY);
      s' := s.(queue := s.queue + [pc.sub], ws := ws');
      TotalUpdate(s.ws, i, t', PcCost);
      RunnableUpdate(s.ws, i, t');
      TotalWakes(s.ws[i := t'], ws', NOT_EMPTY, PcCost);
      TasksCostSnoc(s.queue, pc.sub);
    } else if s.done {
      s' := s.(dropped := s.dropped + [pc.sub], ws := s.ws[i := Thread(Running, next)]);
      Move(s, i, next, s');
    } else {
      s' := s.(ws := s.ws[i := Thread(Asleep(NOT_FULL), pc)]);
      Sleep(s, i, NOT_FULL, s');
    }
  }

  /** The queue is full and every worker that has not left is in enqueue_task. Either main still polls, and then it does
  not matter who is asleep; or `done` is set and all of them sleep, because set_done wakes only those who wait for a
  path. */
  ghost predicate Jammed(c: Config, s: State) {
    && (exists i :: 0 <= i < |s.ws| && s.ws[i].at.Enqueue?)
    && |s.queue| == c.cap > 0 && (if s.done then s.main.Join? else s.main.Check? || s.main.Recheck?)
    && forall i :: 0 <= i < |s.ws| ==>
      if s.done then s.ws[i].at.Exited? || (s.ws[i].at.Enqueue? && s.ws[i].mode == Asleep(NOT_FULL))
      else s.ws[i].at.Enqueue?
  }

  /** No worker can move. */
  ghost predicate Still(s: State) {
    forall i :: 0 <= i < |s.ws| ==> s.ws[i].at.Exited? || !CanRun(s.ws[i])
  }

  lemma NoneNotified(s: State, cv: nat)
    requires Wakeups(s) && Still(s)
    ensures NotifiedOn(s.ws, cv) == 0
  {
    if NotifiedOn(s.ws, cv) > 0 {
      var k := SomeNotified(s.ws, cv);
    }
  }

  /** If no worker can move, then no path is queued while a worker waits for one, and no room is left while a worker
  waits for room. */
  lemma StillQueue(c: Config, s: State)
    requires Wakeups(s) && Room(c, s) && Still(s)
    ensures SomeAsleep(s.ws, NOT_EMPTY) ==> s.queue == []
    ensures SomeAsleep(s.ws, NOT_FULL) ==> |s.queue| == c.cap
    ensures forall i :: 0 <= i < |s.ws| ==>
      s.ws[i].at.Exited? || (s.ws[i].mode == Asleep(NOT_EMPTY) && s.ws[i].at.Dequeue?)
      || (s.ws[i].mode == Asleep(NOT_FULL) && s.ws[i].at.Enqueue?)
  {
    NoneNotified(s, NOT_EMPTY);
    NoneNotified(s, NOT_FULL);
    forall i | 0 <= i < |s.ws| && !s.ws[i].at.Exited?
      ensures (s.ws[i].mode == Asleep(NOT_EMPTY) && s.ws[i].at.Dequeue?)
              || (s.ws[i].mode == Asleep(NOT_FULL) && s.ws[i].at.Enqueue?)
    {
      assert WellPlaced(s.ws[i]);
    }
  }

  /** If no worker can move and the queue is not jammed, main can. */
  lemma MainMoves(c: Config, s: State) returns (s': State)
    requires Inv(c, s) && Room(c, s) && c.cap > 0 && |s.ws| > 0 && Still(s)
    requires !s.main.Finished? && !Jammed(c, s)
    ensures MainStep(c, s, s') && |s'.ws| == |s.ws| && Rank(s'.main) < Rank(s.main)
  {
    StillQueue(c, s);
    if s.done {
      s' := s.(main := Finished);
    } else if s.main.SetDone? {
      var ws' := WakeAll(s.ws, NOT_EMPTY);
      s' := s.(done := true, main := Join, ws := ws');
    } else {
      assert s.queue == [];
      if s.main.Seed? {
        var ws' := WakeOne(s.ws, NOT_EMPTY);
        s' := s.(queue := [] + [c.root], main := Check, ws := ws');
      } else {
        s' := s.(main := if s.main.Check? then Recheck else SetDone);
      }
    }
  }

  /** A step of main or of a worker, not a spurious wakeup. */
  ghost predicate Acts(c: Config, s: State, s': State) {
    MainStep(c, s, s') || exists i: nat :: i < |s.ws| && WorkerStep(c, s, i, s')
  }

  /** In every reachable state that is not jammed and not at the end, some step brings the end nearer. */
  lemma Forward(c: Config, s: State) returns (s': State)
    requires Inv(c, s) && Room(c, s) && c.cap > 0 && |s.ws| > 0 && !s.main.Finished? && !Jammed(c, s)
    ensures Acts(c, s, s') && |s'.ws| > 0
    ensures Rank(s'.main) < Rank(s.main) || (s'.main == s.main && Cost(s') < Cost(s))
  {
    if i: nat :| i < |s.ws| && CanRun(s.ws[i]) && !s.ws[i].at.Exited? {
      s' := Advance(c, s, i);
    } else {
      s' := MainMoves(c, s);
    }
  }

  /** A run without spurious wakeups. */
  ghost predicate PlainRun(c: Config, run: seq<State>) {
    |run| > 0 && forall k :: 0 < k < |run| ==> Acts(c, run[k - 1], run[k])
  }

  lemma ActsKeep(c: Config, s: State, s': State)
    requires Inv(c, s) && Room(c, s) && Acts(c, s, s')
    ensures Inv(c, s') && Room(c, s')
  {
    NextKeepsInv(c, s, s');
    NextKeepsRoom(c, s, s');
  }

  lemma {:induction false} Continue(c: Config, s: State) returns (run: seq<State>)
    requires Inv(c, s) && Room(c, s) && c.cap > 0 && |s.ws| > 0
    ensures PlainRun(c, run) && run[0] == s
    ensures run[|run| - 1].main.Finished? || Jammed(c, run[|run| - 1])
    decreases Rank(s.main), Cost(s)
  {
    if s.main.Finished? || Jammed(c, s) {
      return [s];
    }
    var s' := Forward(c, s);
    ActsKeep(c, s, s');
    var rest := Continue(c, s');
    Runs.Prepend((a, b) => Acts(c, a, b), s, rest);
    run := [s] + rest;
  }

  /** The jam is the only deadlock: for every tree, every capacity and at least one worker, every state of every run can
  be continued, without the help of spurious wakeups, until main prints or the queue is jammed. */
  lemma FinishOrJam(c: Config, run: seq<State>) returns (more: seq<State>)
    requires IsRun(c, run) && Init(run[0]) && |run[0].ws| > 0 && c.cap > 0
    ensures PlainRun(c, more) && more[0] == run[|run| - 1]
    ensures more[|more| - 1].main.Finished? || Jammed(c, more[|more| - 1])
  {
    var n := |run| - 1;
    RunKeepsInv(c, run, n);
    RunKeepsRoom(c, run, n);
    WorkersKept(c, run, n);
    more := Continue(c, run[n]);
  }

  /** The tree has at most as many subdirectories as the queue has places, and two more for every worker but one. */
  predicate Ample(c: Config, workers: nat) {
    c.cap > 0 && workers > 0 && CountDir(c.root.path, c.root.node).dirs <= c.cap + 2 * workers - 2
  }

  lemma {:induction false} AllHold(ws: seq<Thread<Pc>>)
    requires forall i :: 0 <= i < |ws| ==> ws[i].at.Enqueue?
    ensures Total(ws, Load) == 2 * |ws|
  {
    if ws != [] {
      assert forall i :: 0 <= i < |ws| - 1 ==> ws[1..][i] == ws[i + 1];
      AllHold(ws[1..]);
    }
  }

  /** In a jam every worker holds two directories beside those in the queue, and all but the root have been counted. */
  lemma AmpleNeverJams(c: Config, s: State)
    requires Inv(c, s) && Ample(c, |s.ws|)
    ensures !Jammed(c, s)
  {
    assert s.counts.dirs <= Balance(c, s).dirs;
    if Jammed(c, s) {
      assert forall i :: 0 <= i < |s.ws| ==> !Awake(s.ws[i]) || !s.done;
      AllHold(s.ws);
    }
  }

  /** Some schedule from `s` on lets main print. */
  ghost predicate CanFinish(c: Config, s: State) {
    exists more: seq<State> :: IsRun(c, more) && more[0] == s && more[|more| - 1].main.Finished?
  }

  /** Over such a tree nothing can get stuck: every state of every run can be continued until main prints. */
  lemma Finish(c: Config, run: seq<State>) returns (more: seq<State>)
    requires IsRun(c, run) && Init(run[0]) && Ample(c, |run[0].ws|)
    ensures PlainRun(c, more) && more[0] == run[|run| - 1] && more[|more| - 1].main.Finished?
    ensures CanFinish(c, run[|run| - 1])
  {
    more := FinishOrJam(c, run);
    RunKeepsInv(c, run, |run| - 1);
    WorkersKept(c, run, |run| - 1);
    PlainKeepsInv(c, more, |more| - 1);
    AmpleNeverJams(c, more[|more| - 1]);
    forall k | 0 < k < |more| ensures Next(c, more[k - 1], more[k]) {
      assert Acts(c, more[k - 1], more[k]);
    }
  }

  lemma {:induction false} PlainKeepsInv(c: Config, run: seq<State>, k: nat)
    requires PlainRun(c, run) && Inv(c, run[0]) && k < |run|
    ensures Inv(c, run[k]) && |run[k].ws| == |run[0].ws|
  {
    if k > 0 {
      PlainKeepsInv(c, run, k - 1);
      assert Acts(c, run[k - 1], run[k]);
      NextKeepsInv(c, run[k - 1], run[k]);
      StepKeepsWorkers(c, run[k - 1], run[k]);
    }
  }

  // ----- a jam is for good

  lemma ActsKeepJam(c: Config, s: State, s': State)
    requires Jammed(c, s) && Acts(c, s, s')
    ensures Jammed(c, s') && s'.queue == s.queue && s'.counts == s.counts && s'.done == s.done
  {
    var e :| 0 <= e < |s.ws| && s.ws[e].at.Enqueue?;
    assert s'.ws[e].at.Enqueue?;
  }

  /** Short of a spurious wakeup, nothing gets the pool out of a jam: it counts no more and never prints. */
  lemma {:induction false} JammedForever(c: Config, run: seq<State>, k: nat)
    requires PlainRun(c, run) && Jammed(c, run[0]) && k < |run|
    ensures Jammed(c, run[k]) && run[k].queue == run[0].queue && run[k].counts == run[0].counts
  {
    if k > 0 {
      JammedForever(c, run, k - 1);
      assert Acts(c, run[k - 1], run[k]);
      ActsKeepJam(c, run[k - 1], run[k]);
    }
  }

  /** While `done` is not set not even spurious wakeups help: every worker goes back to sleep. */
  lemma {:induction false} TrappedForever(c: Config, run: seq<State>, k: nat)
    requires IsRun(c, run) && Jammed(c, run[0]) && !run[0].done && k < |run|
    ensures Jammed(c, run[k]) && !run[k].done && run[k].queue == run[0].queue && run[k].counts == run[0].counts
  {
    if k > 0 {
      TrappedForever(c, run, k - 1);
      if Acts(c, run[k - 1], run[k]) {
        ActsKeepJam(c, run[k - 1], run[k]);
      } else {
        assert Next(c, run[k - 1], run[k]);
      }
    }
  }

  lemma JamCannotFinish(c: Config, s: State)
    requires Jammed(c, s) && !s.done
    ensures !CanFinish(c, s)
  {
    forall more: seq<State> | IsRun(c, more) && more[0] == s ensures !more[|more| - 1].main.Finished? {
      TrappedForever(c, more, |more| - 1);
    }
  }

  // ----- reachable states

  /** Some run with this many workers ends in `s`. */
  ghost predicate Reachable(c: Config, workers: nat, s: State) {
    exists run: seq<State> :: IsRun(c, run) && Init(run[0]) && |run[0].ws| == workers && run[|run| - 1] == s
  }

  lemma ReachNext(c: Config, workers: nat, s: State, s': State)
    requires Reachable(c, workers, s) && Next(c, s, s')
    ensures Reachable(c, workers, s')
  {
    var run: seq<State> :| IsRun(c, run) && Init(run[0]) && |run[0].ws| == workers && run[|run| - 1] == s;
    Runs.Extend((a, b) => Next(c, a, b), run, s');
    var longer := run + [s'];
    assert IsRun(c, longer) && Init(longer[0]) && longer[|longer| - 1] == s';
  }

  /** After `done` nobody falls asleep any more, and what was dropped stays dropped. */
  lemma {:induction false} DoneStaysAwake(c: Config, workers: nat, run: seq<State>, k: nat)
    requires PlainRun(c, run) && Reachable(c, workers, run[0]) && k < |run|
    requires run[0].done && !SomeAsleep(run[0].ws, NOT_FULL)
    ensures Reachable(c, workers, run[k]) && run[k].done && !SomeAsleep(run[k].ws, NOT_FULL)
    ensures run[0].dropped <= run[k].dropped
  {
    if k > 0 {
      DoneStaysAwake(c, workers, run, k - 1);
      assert Acts(c, run[k - 1], run[k]);
      ReachNext(c, workers, run[k - 1], run[k]);
      AwakeStep(c, run[k - 1], run[k]);
    }
  }

  lemma AwakeStep(c: Config, s: State, s': State)
    requires Acts(c, s, s') && s.done && !SomeAsleep(s.ws, NOT_FULL)
    ensures s'.done && !SomeAsleep(s'.ws, NOT_FULL) && s.dropped <= s'.dropped
  {
  }

  /** So from there the pool always gets to the end. */
  lemma DoneFinishes(c: Config, workers: nat, s: State) returns (s': State)
    requires Reachable(c, workers, s) && c.cap > 0 && workers > 0 && s.done && !SomeAsleep(s.ws, NOT_FULL)
    ensures Reachable(c, workers, s') && s'.main.Finished? && s.dropped <= s'.dropped
  {
    var run: seq<State> :| IsRun(c, run) && Init(run[0]) && |run[0].ws| == workers && run[|run| - 1] == s;
    var more := FinishOrJam(c, run);
    DoneStaysAwake(c, workers, more, |more| - 1);
    s' := more[|more| - 1];
  }
}
