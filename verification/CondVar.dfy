/** Threads that share one mutex and any number of condition variables.

A critical section is one atomic step. A thread that calls `pthread_cond_wait` becomes `Asleep` on that
variable; a signal, a broadcast or a spurious wakeup makes it `Notified`, and a notified thread re-enters its
critical section like a running one (every wait in the programs modelled here sits in a `while` loop). As in
POSIX.1-2017, a signal wakes at least one sleeper when there is one, and wakeups may be spurious.
*/
module CondVar {
  import opened Multisets

  datatype Mode = Running | Asleep(cv: nat) | Notified(cv: nat)

  /** A thread: how it is scheduled, and where it is in its program. */
  datatype Thread<A> = Thread(mode: Mode, at: A)

  predicate CanRun<A>(t: Thread<A>) {
    !t.mode.Asleep?
  }

  ghost predicate SomeAsleep<A>(ws: seq<Thread<A>>, cv: nat) {
    exists i :: 0 <= i < |ws| && ws[i].mode == Asleep(cv)
  }

  /** `ws'` is `ws` with any set of the sleepers on `cv` woken: one spurious wakeup, or several. */
  ghost predicate Wakes<A>(ws: seq<Thread<A>>, ws': seq<Thread<A>>, cv: nat) {
    && |ws'| == |ws|
    && forall i :: 0 <= i < |ws| ==>
      ws'[i] == ws[i] || (ws[i].mode == Asleep(cv) && ws'[i] == ws[i].(mode := Notified(cv)))
  }

  ghost predicate Signal<A>(ws: seq<Thread<A>>, ws': seq<Thread<A>>, cv: nat) {
    && Wakes(ws, ws', cv)
    && (SomeAsleep(ws, cv) ==> exists i :: 0 <= i < |ws| && ws'[i] != ws[i])
  }

  ghost predicate Broadcast<A>(ws: seq<Thread<A>>, ws': seq<Thread<A>>, cv: nat) {
    Wakes(ws, ws', cv) && !SomeAsleep(ws', cv)
  }

  /** How many threads were notified on `cv` and have not resumed yet. */
  function NotifiedOn<A>(ws: seq<Thread<A>>, cv: nat): nat {
    if ws == [] then 0
    else NotifiedOn(ws[1..], cv) + (if ws[0].mode == Notified(cv) then 1 else 0)
  }

  /** How many threads are not asleep. */
  function RunnableCount<A>(ws: seq<Thread<A>>): nat {
    if ws == [] then 0 else RunnableCount(ws[1..]) + (if CanRun(ws[0]) then 1 else 0)
  }

  /** The work-conserving discipline: if anyone sleeps on `cv`, every available unit of the resource that
  `cv` announces already has its own notified thread on the way to it. */
  ghost predicate Covered<A>(units: int, ws: seq<Thread<A>>, cv: nat) {
    SomeAsleep(ws, cv) ==> units <= NotifiedOn(ws, cv)
  }

  lemma {:induction false} NotifiedOnUpdate<A>(ws: seq<Thread<A>>, i: nat, t: Thread<A>, cv: nat)
    requires i < |ws|
    ensures NotifiedOn(ws[i := t], cv) ==
            NotifiedOn(ws, cv) - (if ws[i].mode == Notified(cv) then 1 else 0)
            + (if t.mode == Notified(cv) then 1 else 0)
  {
    if i > 0 {
      assert ws[i := t][1..] == ws[1..][i - 1 := t];
      NotifiedOnUpdate(ws[1..], i - 1, t, cv);
    } else {
      assert ws[i := t][1..] == ws[1..];
    }
  }

  lemma {:induction false} RunnableUpdate<A>(ws: seq<Thread<A>>, i: nat, t: Thread<A>)
    requires i < |ws|
    ensures RunnableCount(ws[i := t]) ==
            RunnableCount(ws) - (if CanRun(ws[i]) then 1 else 0) + (if CanRun(t) then 1 else 0)
  {
    if i > 0 {
      assert ws[i := t][1..] == ws[1..][i - 1 := t];
      RunnableUpdate(ws[1..], i - 1, t);
    } else {
      assert ws[i := t][1..] == ws[1..];
    }
  }

  lemma {:induction false} WakesCount<A>(ws: seq<Thread<A>>, ws': seq<Thread<A>>, cv: nat)
    requires Wakes(ws, ws', cv)
    ensures NotifiedOn(ws', cv) >= NotifiedOn(ws, cv)
    ensures (exists i :: 0 <= i < |ws| && ws'[i] != ws[i]) ==> NotifiedOn(ws', cv) > NotifiedOn(ws, cv)
  {
    if ws != [] {
      assert forall i :: 0 <= i < |ws| - 1 ==> ws[1..][i] == ws[i + 1] && ws'[1..][i] == ws'[i + 1];
      WakesCount(ws[1..], ws'[1..], cv);
      if i :| 0 <= i < |ws| && ws'[i] != ws[i] {
        if i > 0 {
          assert ws'[1..][i - 1] != ws[1..][i - 1];
        }
      }
    }
  }

  /** Wakeups on one variable leave the count of notified threads on another alone. */
  lemma {:induction false} WakesOther<A>(ws: seq<Thread<A>>, ws': seq<Thread<A>>, cv: nat, other: nat)
    requires Wakes(ws, ws', cv) && cv != other
    ensures NotifiedOn(ws', other) == NotifiedOn(ws, other)
    ensures SomeAsleep(ws', other) == SomeAsleep(ws, other)
  {
    if ws != [] {
      assert forall i :: 0 <= i < |ws| - 1 ==> ws[1..][i] == ws[i + 1] && ws'[1..][i] == ws'[i + 1];
      WakesOther(ws[1..], ws'[1..], cv, other);
    }
    if i :| 0 <= i < |ws| && ws[i].mode == Asleep(other) {
      assert ws'[i] == ws[i];
    }
  }

  /** Any wakeup on any variable keeps the discipline. */
  lemma CoveredWakes<A>(units: int, ws: seq<Thread<A>>, ws': seq<Thread<A>>, woken: nat, cv: nat)
    requires Covered(units, ws, cv) && Wakes(ws, ws', woken)
    ensures Covered(units, ws', cv)
  {
    if woken == cv {
      WakesCount(ws, ws', cv);
    } else {
      WakesOther(ws, ws', woken, cv);
    }
  }

  /** Publishing one unit and signalling once keeps the discipline: no wakeup is lost. */
  lemma CoveredSignal<A>(units: int, ws: seq<Thread<A>>, ws': seq<Thread<A>>, cv: nat)
    requires Covered(units, ws, cv) && Signal(ws, ws', cv)
    ensures Covered(units + 1, ws', cv)
  {
    WakesCount(ws, ws', cv);
    if SomeAsleep(ws', cv) {
      var i :| 0 <= i < |ws'| && ws'[i].mode == Asleep(cv);
      assert ws[i].mode == Asleep(cv);
    }
  }

  /** A thread that was not asleep runs on: it may have used up one unit if it had been notified on `cv`. */
  lemma CoveredRun<A>(units: int, ws: seq<Thread<A>>, i: nat, t: Thread<A>, cv: nat)
    requires i < |ws| && CanRun(ws[i]) && t.mode == Running && Covered(units, ws, cv)
    ensures Covered(if ws[i].mode == Notified(cv) then units - 1 else units, ws[i := t], cv)
  {
    NotifiedOnUpdate(ws, i, t, cv);
    if SomeAsleep(ws[i := t], cv) {
      var k :| 0 <= k < |ws| && ws[i := t][k].mode == Asleep(cv);
      assert ws[k].mode == Asleep(cv);
    }
  }

  /** A thread falls asleep on another variable without touching the units of `cv`. */
  lemma CoveredSleepElsewhere<A>(units: int, ws: seq<Thread<A>>, i: nat, t: Thread<A>, cv: nat)
    requires i < |ws| && ws[i].mode != Notified(cv) && CanRun(ws[i]) && Covered(units, ws, cv)
    requires t.mode.Asleep? && t.mode.cv != cv
    ensures Covered(units, ws[i := t], cv)
  {
    NotifiedOnUpdate(ws, i, t, cv);
    if SomeAsleep(ws[i := t], cv) {
      var k :| 0 <= k < |ws| && ws[i := t][k].mode == Asleep(cv);
      assert ws[k].mode == Asleep(cv);
    }
  }

  lemma {:induction false} SomeNotified<A>(ws: seq<Thread<A>>, cv: nat) returns (i: nat)
    requires NotifiedOn(ws, cv) > 0
    ensures i < |ws| && ws[i].mode == Notified(cv)
  {
    if ws[0].mode == Notified(cv) {
      return 0;
    }
    var k := SomeNotified(ws[1..], cv);
    i := k + 1;
  }

  /** Under the discipline an available unit always finds a thread awake. */
  lemma SomeRunnable<A>(units: int, ws: seq<Thread<A>>, cv: nat) returns (i: nat)
    requires Covered(units, ws, cv) && units > 0 && |ws| > 0
    requires forall k :: 0 <= k < |ws| && ws[k].mode.Asleep? ==> ws[k].mode.cv == cv
    ensures i < |ws| && CanRun(ws[i])
  {
    if SomeAsleep(ws, cv) {
      i := SomeNotified(ws, cv);
    } else {
      i := 0;
    }
  }

  /** A signal outcome that wakes exactly one sleeper, when there is one. */
  lemma WakeOne<A>(ws: seq<Thread<A>>, cv: nat) returns (ws': seq<Thread<A>>)
    ensures Signal(ws, ws', cv)
    ensures RunnableCount(ws') <= RunnableCount(ws) + 1
  {
    if i :| 0 <= i < |ws| && ws[i].mode == Asleep(cv) {
      ws' := ws[i := ws[i].(mode := Notified(cv))];
      RunnableUpdate(ws, i, ws[i].(mode := Notified(cv)));
      assert ws'[i] != ws[i];
    } else {
      ws' := ws;
    }
  }

  /** A broadcast always has an outcome. */
  lemma WakeAll<A>(ws: seq<Thread<A>>, cv: nat) returns (ws': seq<Thread<A>>)
    ensures Broadcast(ws, ws', cv)
  {
    ws' := seq(|ws|, i requires 0 <= i < |ws| =>
      if ws[i].mode == Asleep(cv) then ws[i].(mode := Notified(cv)) else ws[i]);
  }

  // ----- sums over the threads of what each one holds

  function Total<A>(ws: seq<Thread<A>>, f: A -> int): int {
    if ws == [] then 0 else f(ws[0].at) + Total(ws[1..], f)
  }

  lemma {:induction false} TotalUpdate<A>(ws: seq<Thread<A>>, i: nat, t: Thread<A>, f: A -> int)
    requires i < |ws|
    ensures Total(ws[i := t], f) == Total(ws, f) - f(ws[i].at) + f(t.at)
  {
    if i > 0 {
      assert ws[i := t][1..] == ws[1..][i - 1 := t];
      TotalUpdate(ws[1..], i - 1, t, f);
    } else {
      assert ws[i := t][1..] == ws[1..];
    }
  }

  lemma {:induction false} TotalWakes<A>(ws: seq<Thread<A>>, ws': seq<Thread<A>>, cv: nat, f: A -> int)
    requires Wakes(ws, ws', cv)
    ensures Total(ws', f) == Total(ws, f)
  {
    if ws != [] {
      assert forall i :: 0 <= i < |ws| - 1 ==> ws[1..][i] == ws[i + 1] && ws'[1..][i] == ws'[i + 1];
      TotalWakes(ws[1..], ws'[1..], cv, f);
    }
  }

  /** A sum of natural numbers is zero exactly when every one of them is. */
  lemma {:induction false} TotalZero<A>(ws: seq<Thread<A>>, f: A -> int)
    requires forall i :: 0 <= i < |ws| ==> f(ws[i].at) >= 0
    ensures Total(ws, f) >= 0
    ensures Total(ws, f) == 0 <==> forall i :: 0 <= i < |ws| ==> f(ws[i].at) == 0
  {
    if ws != [] {
      assert forall i :: 0 <= i < |ws| - 1 ==> ws[1..][i] == ws[i + 1];
      TotalZero(ws[1..], f);
      assert forall i :: 0 < i < |ws| ==> ws[i] == ws[1..][i - 1];
    }
  }

  function Held<A, T>(ws: seq<Thread<A>>, f: A -> multiset<T>): multiset<T> {
    if ws == [] then multiset{} else f(ws[0].at) + Held(ws[1..], f)
  }

  lemma {:induction false} HeldUpdate<A, T>(ws: seq<Thread<A>>, i: nat, t: Thread<A>, f: A -> multiset<T>)
    requires i < |ws|
    ensures Held(ws[i := t], f) + f(ws[i].at) == Held(ws, f) + f(t.at)
  {
    var us := ws[i := t];
    if i > 0 {
      assert us[1..] == ws[1..][i - 1 := t];
      HeldUpdate(ws[1..], i - 1, t, f);
      AddLeft(f(ws[0].at), Held(us[1..], f), f(ws[i].at), Held(ws[1..], f), f(t.at));
    } else {
      assert us[1..] == ws[1..];
      SwapLast(f(t.at), Held(ws[1..], f), f(ws[0].at));
    }
  }

  lemma {:induction false} HeldWakes<A, T>(ws: seq<Thread<A>>, ws': seq<Thread<A>>, cv: nat, f: A -> multiset<T>)
    requires Wakes(ws, ws', cv)
    ensures Held(ws', f) == Held(ws, f)
  {
    if ws != [] {
      assert forall i :: 0 <= i < |ws| - 1 ==> ws[1..][i] == ws[i + 1] && ws'[1..][i] == ws'[i + 1];
      HeldWakes(ws[1..], ws'[1..], cv, f);
    }
  }

  lemma {:induction false} HeldEmpty<A, T>(ws: seq<Thread<A>>, f: A -> multiset<T>)
    requires forall i :: 0 <= i < |ws| ==> f(ws[i].at) == multiset{}
    ensures Held(ws, f) == multiset{}
  {
    if ws != [] {
      assert forall i :: 0 <= i < |ws| - 1 ==> ws[1..][i] == ws[i + 1];
      HeldEmpty(ws[1..], f);
    }
  }
}
