/** The parking lot of homework/parking.c: entry gates and exit gates over one bounded counter, with two
condition variables and `pthread_cond_signal` only. The capacity, the number of gates and the number of rounds
of each gate are parameters; the printed messages are not modelled. */
module Parking {
  import opened CondVar
  import Runs

  const NOT_FULL: nat := 0
  const NOT_EMPTY: nat := 1

  /** A gate thread and the rounds it still has to do. */
  datatype Gate = Enter(left: nat) | Exit(left: nat)

  datatype State = State(remain: int, ws: seq<Thread<Gate>>)

  /** One critical section of gate `i`: enter_car or exit_car from lock to unlock, or to the wait. */
  ghost predicate Act(cap: nat, s: State, i: nat, s': State)
    requires i < |s.ws|
  {
    var t := s.ws[i];
    && CanRun(t) && t.at.left > 0
    && match t.at
       case Enter(k) =>
         if s.remain == 0 then
           s' == s.(ws := s.ws[i := Thread(Asleep(NOT_FULL), t.at)])
         else
           && s'.remain == s.remain - 1
           && Signal(s.ws[i := Thread(Running, Enter(k - 1))], s'.ws, NOT_EMPTY)
       case Exit(k) =>
         if s.remain == cap then
           s' == s.(ws := s.ws[i := Thread(Asleep(NOT_EMPTY), t.at)])
         else
           && s'.remain == s.remain + 1
           && Signal(s.ws[i := Thread(Running, Exit(k - 1))], s'.ws, NOT_FULL)
  }

  ghost predicate Spurious(s: State, s': State) {
    s'.remain == s.remain && exists cv: nat :: Wakes(s.ws, s'.ws, cv)
  }

  ghost predicate Next(cap: nat, s: State, s': State) {
    (exists i: nat :: i < |s.ws| && Act(cap, s, i, s')) || Spurious(s, s')
  }

  ghost predicate Init(cap: nat, s: State) {
    s.remain == cap && forall i :: 0 <= i < |s.ws| ==> s.ws[i].mode == Running
  }

  ghost predicate IsRun(cap: nat, run: seq<State>) {
    |run| > 0 && forall k :: 0 < k < |run| ==> Next(cap, run[k - 1], run[k])
  }

  predicate Finished(s: State) {
    forall i :: 0 <= i < |s.ws| ==> s.ws[i].at.left == 0
  }

  /** `s'` can be reached from `s` by some run. */
  ghost predicate Reaches(cap: nat, s: State, s': State) {
    exists run :: IsRun(cap, run) && run[0] == s && run[|run| - 1] == s'
  }

  /** Some schedule from `s` lets every gate finish all its rounds. */
  ghost predicate CanFinish(cap: nat, s: State) {
    exists s' :: Reaches(cap, s, s') && Finished(s')
  }

  function EntriesOf(g: Gate): int {
    if g.Enter? then g.left else 0
  }

  function ExitsOf(g: Gate): int {
    if g.Exit? then g.left else 0
  }

  function EntriesLeft(ws: seq<Thread<Gate>>): nat {
    TotalZero(ws, EntriesOf);
    Total(ws, EntriesOf)
  }

  function ExitsLeft(ws: seq<Thread<Gate>>): nat {
    TotalZero(ws, ExitsOf);
    Total(ws, ExitsOf)
  }

  lemma LeftUpdate(ws: seq<Thread<Gate>>, i: nat, t: Thread<Gate>)
    requires i < |ws|
    ensures EntriesLeft(ws[i := t]) == EntriesLeft(ws) - EntriesOf(ws[i].at) + EntriesOf(t.at)
    ensures ExitsLeft(ws[i := t]) == ExitsLeft(ws) - ExitsOf(ws[i].at) + ExitsOf(t.at)
  {
    TotalUpdate(ws, i, t, EntriesOf);
    TotalUpdate(ws, i, t, ExitsOf);
  }

  lemma LeftWakes(ws: seq<Thread<Gate>>, ws': seq<Thread<Gate>>, cv: nat)
    requires Wakes(ws, ws', cv)
    ensures EntriesLeft(ws') == EntriesLeft(ws) && ExitsLeft(ws') == ExitsLeft(ws)
  {
    TotalWakes(ws, ws', cv, EntriesOf);
    TotalWakes(ws, ws', cv, ExitsOf);
  }

  lemma NothingLeft(s: State)
    ensures Finished(s) <==> EntriesLeft(s.ws) + ExitsLeft(s.ws) == 0
  {
    TotalZero(s.ws, EntriesOf);
    TotalZero(s.ws, ExitsOf);
    assert forall i :: 0 <= i < |s.ws| ==> s.ws[i].at.left == EntriesOf(s.ws[i].at) + ExitsOf(s.ws[i].at);
  }

  /** A gate waits on the variable of its own kind, and only with a round to do. */
  predicate WellPlaced(t: Thread<Gate>) {
    t.mode.Running?
    || (t.mode.cv == NOT_FULL && t.at.Enter? && t.at.left > 0)
    || (t.mode.cv == NOT_EMPTY && t.at.Exit? && t.at.left > 0)
  }

  /** What every step keeps. `entries` and `exits` are the rounds planned at the start. */
  ghost predicate Inv(cap: nat, entries: nat, exits: nat, s: State) {
    && 0 <= s.remain <= cap
    && s.remain == cap - (entries - EntriesLeft(s.ws)) + (exits - ExitsLeft(s.ws))
    && (forall i :: 0 <= i < |s.ws| ==> WellPlaced(s.ws[i]))
    && Covered(s.remain, s.ws, NOT_FULL)
    && Covered(cap - s.remain, s.ws, NOT_EMPTY)
  }

  lemma ActKeepsInv(cap: nat, entries: nat, exits: nat, s: State, i: nat, s': State)
    requires Inv(cap, entries, exits, s) && i < |s.ws| && Act(cap, s, i, s')
    ensures Inv(cap, entries, exits, s')
  {
    var t := s.ws[i];
    assert WellPlaced(t);
    var mine := if t.at.Enter? then NOT_FULL else NOT_EMPTY;
    var other := if t.at.Enter? then NOT_EMPTY else NOT_FULL;
    var mineUnits := if t.at.Enter? then s.remain else cap - s.remain;
    if mineUnits == 0 {
      var t' := Thread(Asleep(mine), t.at);
      LeftUpdate(s.ws, i, t');
      CoveredSleepElsewhere(cap - mineUnits, s.ws, i, t', other);
    } else {
      var t' := Thread(Running, if t.at.Enter? then Enter(t.at.left - 1) else Exit(t.at.left - 1));
      var ws1 := s.ws[i := t'];
      LeftUpdate(s.ws, i, t');
      LeftWakes(ws1, s'.ws, other);
      CoveredRun(mineUnits, s.ws, i, t', mine);
      assert Covered(mineUnits - 1, ws1, mine);
      CoveredWakes(mineUnits - 1, ws1, s'.ws, other, mine);
      CoveredRun(cap - mineUnits, s.ws, i, t', other);
      CoveredSignal(cap - mineUnits, ws1, s'.ws, other);
    }
  }

  lemma NextKeepsInv(cap: nat, entries: nat, exits: nat, s: State, s': State)
    requires Inv(cap, entries, exits, s) && Next(cap, s, s')
    ensures Inv(cap, entries, exits, s')
  {
    if i: nat :| i < |s.ws| && Act(cap, s, i, s') {
      ActKeepsInv(cap, entries, exits, s, i, s');
    } else {
      var cv: nat :| Wakes(s.ws, s'.ws, cv);
      LeftWakes(s.ws, s'.ws, cv);
      CoveredWakes(s.remain, s.ws, s'.ws, cv, NOT_FULL);
      CoveredWakes(cap - s.remain, s.ws, s'.ws, cv, NOT_EMPTY);
    }
  }

  /** Over every run, whatever the schedule: the counter is the capacity less the cars inside, it stays within
  bounds, and whenever a gate sleeps each free place (each parked car) already has a notified gate. */
  lemma {:induction false} RunKeepsInv(cap: nat, run: seq<State>, k: nat)
    requires IsRun(cap, run) && Init(cap, run[0]) && k < |run|
    ensures Inv(cap, EntriesLeft(run[0].ws), ExitsLeft(run[0].ws), run[k])
  {
    var entries, exits := EntriesLeft(run[0].ws), ExitsLeft(run[0].ws);
    if k > 0 {
      RunKeepsInv(cap, run, k - 1);
      NextKeepsInv(cap, entries, exits, run[k - 1], run[k]);
    }
  }

  /** With matching totals some unfinished gate is awake: nobody waits for a wakeup that was lost. */
  lemma SomeGateRunnable(cap: nat, entries: nat, exits: nat, s: State) returns (i: nat)
    requires Inv(cap, entries, exits, s) && !Finished(s)
    requires cap > 0 && exits <= entries <= exits + cap
    ensures i < |s.ws| && CanRun(s.ws[i]) && s.ws[i].at.left > 0
  {
    if k: nat :| k < |s.ws| && CanRun(s.ws[k]) && s.ws[k].at.left > 0 {
      return k;
    }
    AllAsleep(cap, entries, exits, s);
    NothingLeft(s);
    assert false;
  }

  /** If every unfinished gate sleeps, unfinished entries mean a full lot and unfinished exits an empty one. */
  lemma AllAsleep(cap: nat, entries: nat, exits: nat, s: State)
    requires Inv(cap, entries, exits, s)
    requires forall i :: 0 <= i < |s.ws| && CanRun(s.ws[i]) ==> s.ws[i].at.left == 0
    ensures EntriesLeft(s.ws) > 0 ==> s.remain == 0
    ensures ExitsLeft(s.ws) > 0 ==> s.remain == cap
  {
    TotalZero(s.ws, EntriesOf);
    TotalZero(s.ws, ExitsOf);
    NoneNotified(s.ws, NOT_FULL);
    NoneNotified(s.ws, NOT_EMPTY);
    if EntriesLeft(s.ws) > 0 {
      var e: nat :| e < |s.ws| && EntriesOf(s.ws[e].at) > 0;
      assert WellPlaced(s.ws[e]) && s.ws[e].mode == Asleep(NOT_FULL);
    }
    if ExitsLeft(s.ws) > 0 {
      var e: nat :| e < |s.ws| && ExitsOf(s.ws[e].at) > 0;
      assert WellPlaced(s.ws[e]) && s.ws[e].mode == Asleep(NOT_EMPTY);
    }
  }

  lemma {:induction false} NoneNotified(ws: seq<Thread<Gate>>, cv: nat)
    requires forall i :: 0 <= i < |ws| ==> WellPlaced(ws[i])
    requires forall i :: 0 <= i < |ws| && CanRun(ws[i]) ==> ws[i].at.left == 0
    ensures NotifiedOn(ws, cv) == 0
  {
    if ws != [] {
      assert WellPlaced(ws[0]);
      assert forall i :: 0 <= i < |ws| - 1 ==> ws[1..][i] == ws[i + 1];
      NoneNotified(ws[1..], cv);
    }
  }

  // ----- every run without spurious wakeups ends

  lemma {:induction false} RunnableAtMost(ws: seq<Thread<Gate>>)
    ensures RunnableCount(ws) <= |ws|
  {
    if ws != [] { RunnableAtMost(ws[1..]); }
  }

  /** A bound on the steps that the gates can still take: a round may wake everybody, and everybody may then sleep. */
  function StepsLeft(s: State): nat {
    (EntriesLeft(s.ws) + ExitsLeft(s.ws)) * (|s.ws| + 1) + RunnableCount(s.ws)
  }

  lemma OneRoundLess(rounds: nat, n: nat)
    ensures (rounds + 1) * (n + 1) == rounds * (n + 1) + n + 1
  {
  }

  lemma ActUsesSteps(cap: nat, s: State, i: nat, s': State)
    requires i < |s.ws| && Act(cap, s, i, s')
    ensures |s'.ws| == |s.ws| && StepsLeft(s') < StepsLeft(s)
  {
    var t := s.ws[i];
    var full := if t.at.Enter? then s.remain == 0 else s.remain == cap;
    if full {
      var t' := Thread(Asleep(if t.at.Enter? then NOT_FULL else NOT_EMPTY), t.at);
      LeftUpdate(s.ws, i, t');
      RunnableUpdate(s.ws, i, t');
    } else {
      var t' := Thread(Running, if t.at.Enter? then Enter(t.at.left - 1) else Exit(t.at.left - 1));
      LeftUpdate(s.ws, i, t');
      LeftWakes(s.ws[i := t'], s'.ws, if t.at.Enter? then NOT_EMPTY else NOT_FULL);
      RunnableAtMost(s'.ws);
      OneRoundLess(EntriesLeft(s'.ws) + ExitsLeft(s'.ws), |s.ws|);
      RunnableUpdate(s.ws, i, Thread(Asleep(NOT_FULL), t.at));
    }
  }

  /** Some gate takes a step; nobody wakes up for no reason. */
  ghost predicate SomeAct(cap: nat, s: State, s': State) {
    exists i: nat :: i < |s.ws| && Act(cap, s, i, s')
  }

  ghost predicate PlainRun(cap: nat, run: seq<State>) {
    |run| > 0 && forall k :: 0 < k < |run| ==> SomeAct(cap, run[k - 1], run[k])
  }

  /** Every run without spurious wakeups, from any state and under any schedule, has a bounded number of steps. */
  lemma {:induction false} PlainRunBounded(cap: nat, run: seq<State>, k: nat)
    requires PlainRun(cap, run) && k < |run|
    ensures k + StepsLeft(run[k]) <= StepsLeft(run[0])
  {
    if k > 0 {
      PlainRunBounded(cap, run, k - 1);
      assert SomeAct(cap, run[k - 1], run[k]);
      var i: nat :| i < |run[k - 1].ws| && Act(cap, run[k - 1], i, run[k]);
      ActUsesSteps(cap, run[k - 1], i, run[k]);
    }
  }

  /** An awake gate with a round to do can take its step. */
  lemma ActPossible(cap: nat, s: State, i: nat) returns (s': State)
    requires i < |s.ws| && CanRun(s.ws[i]) && s.ws[i].at.left > 0
    ensures Act(cap, s, i, s')
  {
    var t := s.ws[i];
    if (if t.at.Enter? then s.remain == 0 else s.remain == cap) {
      s' := s.(ws := s.ws[i := Thread(Asleep(if t.at.Enter? then NOT_FULL else NOT_EMPTY), t.at)]);
    } else {
      var t' := Thread(Running, if t.at.Enter? then Enter(t.at.left - 1) else Exit(t.at.left - 1));
      var ws' := WakeOne(s.ws[i := t'], if t.at.Enter? then NOT_EMPTY else NOT_FULL);
      s' := State(if t.at.Enter? then s.remain - 1 else s.remain + 1, ws');
    }
  }

  ghost predicate Stopped(cap: nat, s: State) {
    forall s' :: !SomeAct(cap, s, s')
  }

  /** With covered totals a run that no gate can continue has finished every gate. So every schedule without spurious
  wakeups finishes, if it is followed as long as it can be. */
  lemma MaximalRunFinishes(cap: nat, run: seq<State>)
    requires cap > 0 && IsRun(cap, run) && Init(cap, run[0])
    requires ExitsLeft(run[0].ws) <= EntriesLeft(run[0].ws) <= ExitsLeft(run[0].ws) + cap
    requires Stopped(cap, run[|run| - 1])
    ensures Finished(run[|run| - 1])
  {
    var s := run[|run| - 1];
    RunKeepsInv(cap, run, |run| - 1);
    if !Finished(s) {
      var i := SomeGateRunnable(cap, EntriesLeft(run[0].ws), ExitsLeft(run[0].ws), s);
      var s' := ActPossible(cap, s, i);
      assert SomeAct(cap, s, s');
    }
  }

  /** A schedule that finishes every gate, from any state the invariant allows. */
  lemma {:induction false} Finish(cap: nat, entries: nat, exits: nat, s: State) returns (run: seq<State>)
    requires Inv(cap, entries, exits, s)
    requires cap > 0 && exits <= entries <= exits + cap
    ensures IsRun(cap, run) && run[0] == s && Finished(run[|run| - 1])
    decreases StepsLeft(s)
  {
    if Finished(s) {
      return [s];
    }
    var i := SomeGateRunnable(cap, entries, exits, s);
    var s' := ActPossible(cap, s, i);
    ActUsesSteps(cap, s, i, s');
    ActKeepsInv(cap, entries, exits, s, i, s');
    var rest := Finish(cap, entries, exits, s');
    Runs.Prepend((a, b) => Next(cap, a, b), s, rest);
    run := [s] + rest;
  }

  /** The lot is free of deadlock exactly when the planned exits are covered by entries and the surplus of
  entries fits the capacity: then every reachable state can still finish, otherwise no run ever does. */
  lemma DeadlockFreeIff(cap: nat, s: State)
    requires cap > 0 && Init(cap, s)
    ensures ExitsLeft(s.ws) <= EntriesLeft(s.ws) <= ExitsLeft(s.ws) + cap
            <==> (forall m :: Reaches(cap, s, m) ==> CanFinish(cap, m))
    ensures ExitsLeft(s.ws) <= EntriesLeft(s.ws) <= ExitsLeft(s.ws) + cap <==> CanFinish(cap, s)
  {
    var entries, exits := EntriesLeft(s.ws), ExitsLeft(s.ws);
    assert IsRun(cap, [s]);
    assert Reaches(cap, s, s) by {
      assert [s][0] == s && [s][|[s]| - 1] == s;
    }
    if exits <= entries <= exits + cap {
      forall m | Reaches(cap, s, m) ensures CanFinish(cap, m) {
        var run :| IsRun(cap, run) && run[0] == s && run[|run| - 1] == m;
        RunKeepsInv(cap, run, |run| - 1);
        var rest := Finish(cap, entries, exits, m);
        assert Reaches(cap, m, rest[|rest| - 1]);
      }
    }
    if CanFinish(cap, s) {
      var m :| Reaches(cap, s, m) && Finished(m);
      var run :| IsRun(cap, run) && run[0] == s && run[|run| - 1] == m;
      RunKeepsInv(cap, run, |run| - 1);
      NothingLeft(m);
    }
  }
}
