/** The one-cell handoff of numbers to prime workers: primer_pool_notice.c (one mutex, one condition variable
for producer and workers) and primer_pool_busy.c (the same cell with unlock, yield, lock polling). The cell
`num` holds 0 when empty and -1 for stop. The range and the number of workers are parameters. */
module Handoff {
  import opened CondVar
  import opened Multisets
  import opened Primes
  import Runs

  const COND_NUM: nat := 0

  /** `busy` selects the polling program. */
  datatype Config = Config(left: int, right: int, busy: bool)

  /** The producer: about to offer `i` (a value past the range means: about to post the stop mark), waiting for
  the workers to exit, or finished. */
  datatype Producer = Offer(i: int) | Join | Done

  datatype Worker = Fetch | Test(v: int) | Exited

  /** `taken` lists the values in the order in which workers took them; `printed` is the output. */
  datatype State = State(num: int, prod: Thread<Producer>, ws: seq<Thread<Worker>>,
                         taken: seq<int>, printed: multiset<int>)

  /** What a worker prints for `v` after the trial division of `HalfTest`. */
  function Output(v: int): multiset<int> {
    if Prime(v) || v == 1 then multiset{v} else multiset{}
  }

  function Woken(p: Thread<Producer>): Thread<Producer> {
    if p.mode == Asleep(COND_NUM) then p.(mode := Notified(COND_NUM)) else p
  }

  /** One critical section of the producer. */
  ghost predicate ProducerStep(c: Config, s: State, s': State) {
    && CanRun(s.prod)
    && match s.prod.at
       case Offer(i) =>
         if s.num != 0 then
           s' == (if c.busy || i > c.right then s.(prod := Thread(Running, Offer(i)))
                  else s.(prod := Thread(Asleep(COND_NUM), Offer(i))))
         else if i <= c.right then
           && s' == s.(num := i, prod := Thread(Running, Offer(i + 1)), ws := s'.ws)
           && (if c.busy then s'.ws == s.ws else Signal(s.ws, s'.ws, COND_NUM))
         else
           && s' == s.(num := -1, prod := Thread(Running, Join), ws := s'.ws)
           && (if c.busy then s'.ws == s.ws else Broadcast(s.ws, s'.ws, COND_NUM))
       case Join =>
         && (forall i :: 0 <= i < |s.ws| ==> s.ws[i].at.Exited?)
         && s' == s.(prod := Thread(Running, Done))
       case Done => false
  }

  /** One critical section of worker `i`, or its trial division outside the lock. */
  ghost predicate WorkerStep(c: Config, s: State, i: nat, s': State)
    requires i < |s.ws|
  {
    && CanRun(s.ws[i])
    && match s.ws[i].at
       case Fetch =>
         if s.num == 0 then
           s' == s.(ws := s.ws[i := Thread(if c.busy then Running else Asleep(COND_NUM), Fetch)])
         else if s.num == -1 then
           s' == s.(ws := s.ws[i := Thread(Running, Exited)])
         else
           var ws1 := s.ws[i := Thread(Running, Test(s.num))];
           && s' == s.(num := 0, taken := s.taken + [s.num], ws := s'.ws,
                       prod := if c.busy then s.prod else Woken(s.prod))
           && (if c.busy then s'.ws == ws1 else Broadcast(ws1, s'.ws, COND_NUM))
       case Test(v) =>
         s' == s.(ws := s.ws[i := Thread(Running, Fetch)], printed := s.printed + Output(v))
       case Exited => false
  }

  ghost predicate Spurious(s: State, s': State) {
    && s' == s.(prod := s'.prod, ws := s'.ws)
    && (s'.prod == s.prod || s'.prod == Woken(s.prod))
    && Wakes(s.ws, s'.ws, COND_NUM)
  }

  ghost predicate Next(c: Config, s: State, s': State) {
    ProducerStep(c, s, s') || (exists i: nat :: i < |s.ws| && WorkerStep(c, s, i, s')) || Spurious(s, s')
  }

  ghost predicate Init(c: Config, s: State) {
    && s.num == 0 && s.taken == [] && s.printed == multiset{} && s.prod == Thread(Running, Offer(c.left))
    && forall i :: 0 <= i < |s.ws| ==> s.ws[i] == Thread(Running, Fetch)
  }

  ghost predicate IsRun(c: Config, run: seq<State>) {
    |run| > 0 && forall k :: 0 < k < |run| ==> Next(c, run[k - 1], run[k])
  }

  /** The integers from `a` up to, not including, `b`. */
  function Upto(a: int, b: int): seq<int>
    decreases b - a
  {
    if b <= a then [] else Upto(a, b - 1) + [b - 1]
  }

  lemma {:induction false} UptoAt(a: int, b: int)
    ensures |Upto(a, b)| == if a <= b then b - a else 0
    ensures forall k :: 0 <= k < |Upto(a, b)| ==> Upto(a, b)[k] == a + k
    decreases b - a
  {
    if a < b { UptoAt(a, b - 1); }
  }

  function InCell(num: int): seq<int> {
    if num > 0 then [num] else []
  }

  function OutputOf(values: seq<int>): multiset<int> {
    if values == [] then multiset{} else OutputOf(values[..|values| - 1]) + Output(values[|values| - 1])
  }

  function PendingOf(w: Worker): multiset<int> {
    if w.Test? then Output(w.v) else multiset{}
  }

  /** What the workers now dividing will still print. */
  function Pending(ws: seq<Thread<Worker>>): multiset<int> {
    Held(ws, PendingOf)
  }

  predicate Active(t: Thread<Worker>) {
    CanRun(t) && !t.at.Exited?
  }

  // ----- the invariant, in three parts

  /** The cell, the producer's index and the log agree: the values taken are LEFT, LEFT+1, ... in order, and the
  value in the cell is the next one. */
  ghost predicate Delivered(c: Config, s: State) {
    match s.prod.at
    case Offer(i) =>
      && c.left <= i && (i <= c.right + 1 || i == c.left)
      && s.num >= 0 && s.taken + InCell(s.num) == Upto(c.left, i)
    case _ => s.num == -1 && s.taken == Upto(c.left, c.right + 1)
  }

  /** No wakeup is lost: the producer never sleeps on an empty cell, a full cell always has an active worker, and
  after the stop mark nobody sleeps. Workers leave only on the stop mark. */
  ghost predicate NoLostWakeup(c: Config, s: State) {
    && (c.busy ==> s.prod.mode.Running? && forall i :: 0 <= i < |s.ws| ==> s.ws[i].mode.Running?)
    && (s.prod.mode.Running? || (s.prod.mode.cv == COND_NUM && s.prod.at.Offer? && s.prod.at.i <= c.right))
    && (forall i :: 0 <= i < |s.ws| ==>
          s.ws[i].mode.Running? || (s.ws[i].mode.cv == COND_NUM && s.ws[i].at.Fetch?))
    && (forall i :: 0 <= i < |s.ws| && s.ws[i].at.Exited? ==> s.num == -1)
    && (s.num == 0 ==> CanRun(s.prod))
    && (s.num > 0 && |s.ws| > 0 ==> exists i :: 0 <= i < |s.ws| && Active(s.ws[i]))
    && (s.num == -1 ==> forall i :: 0 <= i < |s.ws| ==> CanRun(s.ws[i]))
    && (s.prod.at.Done? ==> forall i :: 0 <= i < |s.ws| ==> s.ws[i].at.Exited?)
  }

  /** Printed output plus what is in the workers' hands is what the taken values deserve. */
  ghost predicate OutputMatches(s: State) {
    s.printed + Pending(s.ws) == OutputOf(s.taken)
  }

  ghost predicate Inv(c: Config, s: State) {
    Delivered(c, s) && NoLostWakeup(c, s) && OutputMatches(s)
  }

  lemma OutputOfSnoc(values: seq<int>, v: int)
    ensures OutputOf(values + [v]) == OutputOf(values) + Output(v)
  {
    assert (values + [v])[..|values|] == values;
  }

  // ----- every step keeps each part

  lemma DeliveredStep(c: Config, s: State, s': State)
    requires c.left >= 1 && Delivered(c, s) && Next(c, s, s')
    ensures Delivered(c, s')
  {
    if ProducerStep(c, s, s') {
      if s.prod.at.Offer? && s.num == 0 {
        var i := s.prod.at.i;
        assert s.taken == Upto(c.left, i);
        if i <= c.right {
          assert Upto(c.left, i + 1) == Upto(c.left, i) + [i];
        } else if i != c.right + 1 {
          assert Upto(c.left, i) == [] == Upto(c.left, c.right + 1);
        }
      }
    } else if i: nat :| i < |s.ws| && WorkerStep(c, s, i, s') {
      if s.num > 0 && s.ws[i].at.Fetch? {
        assert s'.taken + InCell(0) == s.taken + InCell(s.num);
      }
    }
  }

  lemma ProducerWakes(c: Config, s: State, s': State)
    requires c.left >= 1 && Delivered(c, s) && NoLostWakeup(c, s) && ProducerStep(c, s, s')
    ensures NoLostWakeup(c, s')
  {
    if s.prod.at.Offer? && s.num == 0 && s.prod.at.i <= c.right && |s.ws| > 0 {
      if !c.busy && SomeAsleep(s.ws, COND_NUM) {
        var i :| 0 <= i < |s.ws| && s'.ws[i] != s.ws[i];
        assert Active(s'.ws[i]);
      } else {
        assert CanRun(s.ws[0]);
        assert Active(s'.ws[0]);
      }
    }
  }

  lemma WorkerWakes(c: Config, s: State, i: nat, s': State)
    requires Delivered(c, s) && NoLostWakeup(c, s) && i < |s.ws| && WorkerStep(c, s, i, s')
    ensures NoLostWakeup(c, s')
  {
    if s.ws[i].at.Test? {
      assert Active(s'.ws[i]);
    }
  }

  lemma SpuriousWakes(c: Config, s: State, s': State)
    requires NoLostWakeup(c, s) && Spurious(s, s')
    ensures NoLostWakeup(c, s')
  {
    if s.num > 0 && |s.ws| > 0 {
      var i :| 0 <= i < |s.ws| && Active(s.ws[i]);
      assert Active(s'.ws[i]);
    }
  }

  lemma OutputStep(c: Config, s: State, s': State)
    requires Delivered(c, s) && OutputMatches(s) && Next(c, s, s')
    ensures OutputMatches(s')
  {
    if ProducerStep(c, s, s') {
      if !c.busy && s'.ws != s.ws { HeldWakes(s.ws, s'.ws, COND_NUM, PendingOf); }
    } else if i: nat :| i < |s.ws| && WorkerStep(c, s, i, s') {
      WorkerOutput(c, s, i, s');
    } else {
      HeldWakes(s.ws, s'.ws, COND_NUM, PendingOf);
    }
  }

  lemma WorkerOutput(c: Config, s: State, i: nat, s': State)
    requires OutputMatches(s) && i < |s.ws| && WorkerStep(c, s, i, s')
    ensures OutputMatches(s')
  {
    match s.ws[i].at
    case Test(v) =>
      HeldUpdate(s.ws, i, Thread(Running, Fetch), PendingOf);
      Settle(s.printed, Pending(s.ws), Pending(s'.ws), Output(v));
    case Fetch =>
      if s.num == 0 || s.num == -1 {
        var t' := s'.ws[i];
        assert s'.ws == s.ws[i := t'];
        HeldUpdate(s.ws, i, t', PendingOf);
        DropEmpty(Pending(s'.ws), Pending(s.ws));
      } else {
        var ws1 := s.ws[i := Thread(Running, Test(s.num))];
        HeldUpdate(s.ws, i, Thread(Running, Test(s.num)), PendingOf);
        if !c.busy { HeldWakes(ws1, s'.ws, COND_NUM, PendingOf); }
        OutputOfSnoc(s.taken, s.num);
        Accrue(s.printed, Pending(s.ws), Pending(s'.ws), Output(s.num));
      }
    case Exited =>
  }

  lemma NextKeepsInv(c: Config, s: State, s': State)
    requires c.left >= 1 && Inv(c, s) && Next(c, s, s')
    ensures Inv(c, s')
  {
    DeliveredStep(c, s, s');
    OutputStep(c, s, s');
    if ProducerStep(c, s, s') {
      ProducerWakes(c, s, s');
    } else if i: nat :| i < |s.ws| && WorkerStep(c, s, i, s') {
      WorkerWakes(c, s, i, s');
    } else {
      SpuriousWakes(c, s, s');
    }
  }

  /** Over every run of either program, with any number of workers and any schedule: the values are handed out
  once each and in order, no wakeup is lost, and the output never falls out of step with the values taken. */
  lemma {:induction false} RunKeepsInv(c: Config, run: seq<State>, k: nat)
    requires c.left >= 1 && IsRun(c, run) && Init(c, run[0]) && k < |run|
    ensures Inv(c, run[k])
  {
    if k == 0 {
      HeldEmpty(run[0].ws, PendingOf);
      assert run[0].taken + InCell(0) == Upto(c.left, c.left);
    } else {
      RunKeepsInv(c, run, k - 1);
      NextKeepsInv(c, run[k - 1], run[k]);
    }
  }

  // ----- the output of a finished run

  function One(a: int, b: int): multiset<int> {
    if a == 1 && b > 1 then multiset{1} else multiset{}
  }

  lemma OneMore(a: int, b: int)
    requires 1 <= a < b
    ensures multiset(PrimesIn(a, b - 1)) + One(a, b) == (multiset(PrimesIn(a, b - 2)) + One(a, b - 1)) + Output(b - 1)
  {
    var before, v := PrimesIn(a, b - 2), b - 1;
    if Prime(v) {
      assert PrimesIn(a, b - 1) == before + [v];
      assert multiset(before + [v]) == multiset(before) + multiset{v};
      SwapLast(multiset(before), One(a, b), multiset{v});
    } else {
      assert PrimesIn(a, b - 1) == before;
    }
  }

  lemma SameSum(x: multiset<int>, v: multiset<int>, x': multiset<int>, y: multiset<int>, y': multiset<int>)
    requires x == y && x' == x + v && y' == y + v
    ensures x' == y'
  {
  }

  lemma OutputOfNext(a: int, b: int)
    requires 1 <= a < b && OutputOf(Upto(a, b - 1)) == multiset(PrimesIn(a, b - 2)) + One(a, b - 1)
    ensures OutputOf(Upto(a, b)) == multiset(PrimesIn(a, b - 1)) + One(a, b)
  {
    OneMore(a, b);
    OutputOfSnoc(Upto(a, b - 1), b - 1);
    SameSum(OutputOf(Upto(a, b - 1)), Output(b - 1), OutputOf(Upto(a, b)), multiset(PrimesIn(a, b - 2)) + One(a, b - 1),
            multiset(PrimesIn(a, b - 1)) + One(a, b));
  }

  /** The output for a run of consecutive values: its primes, and 1 if it is among them. */
  lemma {:induction false} OutputOfUpto(a: int, b: int)
    requires 1 <= a
    ensures OutputOf(Upto(a, b)) == multiset(PrimesIn(a, b - 1)) + One(a, b)
    decreases b - a
  {
    if b > a {
      OutputOfUpto(a, b - 1);
      OutputOfNext(a, b);
    } else {
      assert PrimesIn(a, b - 1) == [] && Upto(a, b) == [];
    }
  }

  /** Once the producer has joined all workers, the values taken are exactly LEFT..RIGHT in order, and the
  printed multiset is exactly the primes of the range if and only if the range does not start at 1. */
  lemma FinishedOutput(c: Config, run: seq<State>)
    requires c.left >= 1 && IsRun(c, run) && Init(c, run[0])
    requires run[|run| - 1].prod.at.Done?
    ensures run[|run| - 1].taken == Upto(c.left, c.right + 1)
    ensures var taken := run[|run| - 1].taken;
            && |taken| == (if c.left <= c.right then c.right - c.left + 1 else 0)
            && forall k :: 0 <= k < |taken| ==> taken[k] == c.left + k
    ensures run[|run| - 1].printed == multiset(PrimesIn(c.left, c.right)) <==> c.left >= 2 || c.right < 1
  {
    RunKeepsInv(c, run, |run| - 1);
    OutputWhenDone(c, run[|run| - 1]);
    UptoAt(c.left, c.right + 1);
    OutputOfUpto(c.left, c.right + 1);
    WithoutOne(c.left, c.right);
  }

  lemma OutputWhenDone(c: Config, s: State)
    requires Inv(c, s) && s.prod.at.Done?
    ensures s.taken == Upto(c.left, c.right + 1) && s.printed == OutputOf(s.taken)
  {
    HeldEmpty(s.ws, PendingOf);
  }

  lemma WithoutOne(left: int, right: int)
    requires left >= 1
    ensures multiset(PrimesIn(left, right)) + One(left, right + 1) == multiset(PrimesIn(left, right))
            <==> left >= 2 || right < 1
  {
    var ps := multiset(PrimesIn(left, right));
    assert (ps + One(left, right + 1))[1] == ps[1] + One(left, right + 1)[1];
  }

  // ----- no deadlock

  function WeightOf(w: Worker): int {
    match w case Test(_) => 2 case Fetch => 1 case Exited => 0
  }

  function Weight(ws: seq<Thread<Worker>>): nat {
    TotalZero(ws, WeightOf);
    Total(ws, WeightOf)
  }

  /** How far the producer is from the end. */
  function Distance(c: Config, p: Producer): nat {
    match p
    case Offer(i) => if i <= c.right then c.right - i + 3 else 2
    case Join => 1
    case Done => 0
  }

  /** From every state of every run some step brings the end nearer. */
  lemma Progress(c: Config, s: State) returns (s': State)
    requires c.left >= 1 && Inv(c, s) && |s.ws| > 0 && !s.prod.at.Done?
    ensures Next(c, s, s') && |s'.ws| > 0
    ensures Distance(c, s'.prod.at) < Distance(c, s.prod.at) || (s'.prod.at == s.prod.at &&
            (|InCell(s'.num)| < |InCell(s.num)|
             || (s'.num == s.num && Weight(s'.ws) < Weight(s.ws))))
  {
    if s.num == 0 {
      s' := OfferNow(c, s);
    } else if i: nat :| i < |s.ws| && Active(s.ws[i]) {
      s' := Advance(c, s, i);
    } else {
      s' := s.(prod := Thread(Running, Done));
      assert ProducerStep(c, s, s');
    }
  }

  lemma OfferNow(c: Config, s: State) returns (s': State)
    requires Inv(c, s) && s.num == 0
    ensures ProducerStep(c, s, s') && |s'.ws| == |s.ws| && Distance(c, s'.prod.at) < Distance(c, s.prod.at)
  {
    var i := s.prod.at.i;
    var ws' := s.ws;
    if i <= c.right {
      if !c.busy { ws' := WakeOne(s.ws, COND_NUM); }
      s' := s.(num := i, prod := Thread(Running, Offer(i + 1)), ws := ws');
    } else {
      if !c.busy { ws' := WakeAll(s.ws, COND_NUM); }
      s' := s.(num := -1, prod := Thread(Running, Join), ws := ws');
    }
  }

  lemma Advance(c: Config, s: State, i: nat) returns (s': State)
    requires Inv(c, s) && s.num != 0 && i < |s.ws| && Active(s.ws[i])
    ensures WorkerStep(c, s, i, s') && |s'.ws| == |s.ws| && s'.prod.at == s.prod.at
    ensures |InCell(s'.num)| < |InCell(s.num)| || (s'.num == s.num && Weight(s'.ws) < Weight(s.ws))
  {
    match s.ws[i].at
    case Test(v) =>
      TotalUpdate(s.ws, i, Thread(Running, Fetch), WeightOf);
      s' := s.(ws := s.ws[i := Thread(Running, Fetch)], printed := s.printed + Output(v));
    case Fetch =>
      if s.num == -1 {
        TotalUpdate(s.ws, i, Thread(Running, Exited), WeightOf);
        s' := s.(ws := s.ws[i := Thread(Running, Exited)]);
      } else {
        var ws' := s.ws[i := Thread(Running, Test(s.num))];
        if !c.busy { ws' := WakeAll(ws', COND_NUM); }
        s' := s.(num := 0, taken := s.taken + [s.num], ws := ws',
                 prod := if c.busy then s.prod else Woken(s.prod));
      }
  }

  /** No deadlock is reachable: with at least one worker, every state of every run can be continued to the end
  of the program. */
  lemma {:induction false} Finish(c: Config, s: State) returns (run: seq<State>)
    requires c.left >= 1 && Inv(c, s) && |s.ws| > 0
    ensures IsRun(c, run) && run[0] == s && run[|run| - 1].prod.at.Done?
    decreases Distance(c, s.prod.at), |InCell(s.num)|, Weight(s.ws)
  {
    if s.prod.at.Done? {
      return [s];
    }
    var s' := Progress(c, s);
    NextKeepsInv(c, s, s');
    var rest := Finish(c, s');
    Runs.Prepend((a, b) => Next(c, a, b), s, rest);
    run := [s] + rest;
  }

  /** Every finite run of either program, from the start, extends to one that ends with the right output. */
  lemma EveryRunCanComplete(c: Config, run: seq<State>) returns (full: seq<State>)
    requires c.left >= 2 && IsRun(c, run) && Init(c, run[0]) && |run[0].ws| > 0
    ensures IsRun(c, full) && run <= full && full[|full| - 1].prod.at.Done?
    ensures full[|full| - 1].printed == multiset(PrimesIn(c.left, c.right))
  {
    var n := |run| - 1;
    RunKeepsInv(c, run, n);
    WorkersKept(c, run, n);
    var rest := Finish(c, run[n]);
    Joined(c, run, rest);
    full := run + rest[1..];
    FinishedOutput(c, full);
  }

  lemma Joined(c: Config, run: seq<State>, rest: seq<State>)
    requires IsRun(c, run) && IsRun(c, rest) && rest[0] == run[|run| - 1]
    ensures IsRun(c, run + rest[1..]) && (run + rest[1..])[|run| + |rest| - 2] == rest[|rest| - 1]
  {
    Runs.Append((a, b) => Next(c, a, b), run, rest);
  }

  lemma {:induction false} WorkersKept(c: Config, run: seq<State>, k: nat)
    requires IsRun(c, run) && k < |run|
    ensures |run[k].ws| == |run[0].ws|
  {
    if k > 0 {
      WorkersKept(c, run, k - 1);
      assert Next(c, run[k - 1], run[k]);
    }
  }
}
