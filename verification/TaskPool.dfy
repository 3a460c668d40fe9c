/** The linked-list thread pool of IPC/socket/Newer/server.c: the list of pending tasks on the heap
(`TaskList`), and the protocol of the workers that share it. A task stands for a function and its argument. */
module TaskPool {
  import opened CondVar
  import opened Multisets
  import Runs

  // ----- the list on the heap

  class Node<T> {
    const task: T
    var next: Node?<T>

    constructor (task: T)
      ensures this.task == task && next == null
    {
      this.task := task;
      next := null;
    }
  }

  /** What one pass through the worker's critical section does. */
  datatype Taken<T> = Wait | Exit | Task(task: T)

  /** What the critical section does at this list of pending tasks. */
  function TakeOutcome<T>(pending: seq<T>, shutdown: bool): Taken<T> {
    if shutdown then Exit else if pending == [] then Wait else Task(pending[0])
  }

  class TaskList<T> {
    var head: Node?<T>
    var tail: Node?<T>
    var count: int
    var shutdown: bool
    ghost var nodes: seq<Node<T>>

    /** The nodes from `head` are distinct, linked in order and end at `tail`, and there are `count` of them;
    both pointers are null exactly when there is none. */
    ghost predicate Valid()
      reads this, nodes
    {
      && count == |nodes|
      && (forall i, j :: 0 <= i < j < |nodes| ==> nodes[i] != nodes[j])
      && (forall i {:trigger nodes[i].next} :: 0 <= i < |nodes| - 1 ==> nodes[i].next == nodes[i + 1])
      && (nodes != [] ==> nodes[|nodes| - 1].next == null)
      && (head == null <==> nodes == [])
      && (tail == null <==> nodes == [])
      && (nodes != [] ==> head == nodes[0] && tail == nodes[|nodes| - 1])
    }

    /** The pending tasks, oldest first. */
    ghost function Pending(): seq<T>
      reads this
    {
      seq(|nodes|, i requires 0 <= i < |nodes| reads this => nodes[i].task)
    }

    /** pool_init */
    constructor ()
      ensures Valid() && Pending() == [] && !shutdown
    {
      head, tail, count, shutdown, nodes := null, null, 0, false, [];
    }

    /** pool_add_task, from lock to signal. */
    method Add(task: T)
      requires Valid()
      modifies this, nodes
      ensures Valid() && Pending() == old(Pending()) + [task]
      ensures shutdown == old(shutdown)
      ensures |nodes| == |old(nodes)| + 1 && nodes[..|old(nodes)|] == old(nodes) && fresh(nodes[|old(nodes)|])
    {
      var node := new Node(task);
      if tail == null {
        head := node;
        tail := node;
      } else {
        tail.next := node;
        tail := node;
      }
      count := count + 1;
      nodes := nodes + [node];
    }

    /** worker_thread's critical section, from lock to unlock or wait: the oldest task is unlinked. */
    method Take() returns (r: Taken<T>)
      requires Valid()
      modifies this
      ensures Valid() && shutdown == old(shutdown)
      ensures r == TakeOutcome(old(Pending()), shutdown)
      ensures r == Exit <==> shutdown
      ensures r == Wait <==> !shutdown && old(Pending()) == []
      ensures r.Task? ==> old(Pending()) == [r.task] + Pending()
      ensures !r.Task? ==> Pending() == old(Pending())
    {
      if count == 0 && !shutdown {
        return Wait;
      }
      if shutdown {
        return Exit;
      }
      var node := head;
      assert node == nodes[0];
      head := node.next;
      if head == null {
        tail := null;
      }
      count := count - 1;
      nodes := nodes[1..];
      return Task(node.task);
    }
  }

  // ----- the protocol

  const COND: nat := 0

  /** The program never sets the flag. */
  const SHUTDOWN := false

  /** A worker: at its critical section, or running a task it has taken. */
  datatype Worker = Fetch | Execute(task: int)

  /** `queue` is the list above; the other fields record what was submitted, taken and executed so far. */
  datatype State = State(queue: seq<int>, ws: seq<Thread<Worker>>,
                         submitted: seq<int>, taken: seq<int>, executed: multiset<int>)

  /** The accepting thread adds a task and signals. */
  ghost predicate Submit(s: State, task: int, s': State) {
    && s' == s.(queue := s.queue + [task], submitted := s.submitted + [task], ws := s'.ws)
    && Signal(s.ws, s'.ws, COND)
  }

  ghost predicate WorkerStep(s: State, i: nat, s': State)
    requires i < |s.ws|
  {
    && CanRun(s.ws[i])
    && match s.ws[i].at
       case Fetch =>
         (match TakeOutcome(s.queue, SHUTDOWN)
          case Wait => s' == s.(ws := s.ws[i := Thread(Asleep(COND), Fetch)])
          case Exit => false
          case Task(task) =>
            s' == s.(queue := s.queue[1..], taken := s.taken + [task],
                     ws := s.ws[i := Thread(Running, Execute(task))]))
       case Execute(task) =>
         s' == s.(executed := s.executed + multiset{task}, ws := s.ws[i := Thread(Running, Fetch)])
  }

  ghost predicate Spurious(s: State, s': State) {
    s' == s.(ws := s'.ws) && Wakes(s.ws, s'.ws, COND)
  }

  ghost predicate Next(s: State, s': State) {
    || (exists task :: Submit(s, task, s'))
    || (exists i: nat :: i < |s.ws| && WorkerStep(s, i, s'))
    || Spurious(s, s')
  }

  ghost predicate Init(s: State) {
    && s.queue == [] && s.submitted == [] && s.taken == [] && s.executed == multiset{}
    && forall i :: 0 <= i < |s.ws| ==> s.ws[i] == Thread(Running, Fetch)
  }

  ghost predicate IsRun(run: seq<State>) {
    |run| > 0 && forall k :: 0 < k < |run| ==> Next(run[k - 1], run[k])
  }

  function InHandOf(w: Worker): multiset<int> {
    if w.Execute? then multiset{w.task} else multiset{}
  }

  /** The tasks being executed. */
  function InHand(ws: seq<Thread<Worker>>): multiset<int> {
    Held(ws, InHandOf)
  }

  /** First in, first out, each task taken once and executed once; and whenever a worker sleeps, every queued task
  has its own notified worker. */
  ghost predicate Inv(s: State) {
    && s.submitted == s.taken + s.queue
    && s.executed + InHand(s.ws) == multiset(s.taken)
    && Covered(|s.queue|, s.ws, COND)
    && forall i :: 0 <= i < |s.ws| ==> s.ws[i].mode.Running? || (s.ws[i].mode.cv == COND && s.ws[i].at.Fetch?)
  }

  lemma WorkerKeepsOrder(s: State, i: nat, s': State)
    requires Inv(s) && i < |s.ws| && WorkerStep(s, i, s')
    ensures s'.submitted == s'.taken + s'.queue
    ensures s'.executed + InHand(s'.ws) == multiset(s'.taken)
  {
    match s.ws[i].at
    case Fetch =>
      var t' := s'.ws[i];
      assert s'.ws == s.ws[i := t'];
      HeldUpdate(s.ws, i, t', InHandOf);
      if s.queue == [] {
        DropEmpty(InHand(s'.ws), InHand(s.ws));
      } else {
        assert s.taken + s.queue == s.taken + [s.queue[0]] + s.queue[1..];
        Accrue(s.executed, InHand(s.ws), InHand(s'.ws), multiset{s.queue[0]});
      }
    case Execute(task) =>
      HeldUpdate(s.ws, i, Thread(Running, Fetch), InHandOf);
      Settle(s.executed, InHand(s.ws), InHand(s'.ws), multiset{task});
  }

  lemma WorkerKeepsInv(s: State, i: nat, s': State)
    requires Inv(s) && i < |s.ws| && WorkerStep(s, i, s')
    ensures Inv(s')
  {
    WorkerKeepsOrder(s, i, s');
    if s'.ws[i].mode.Running? {
      CoveredRun(|s.queue|, s.ws, i, s'.ws[i], COND);
    }
  }

  lemma NextKeepsInv(s: State, s': State)
    requires Inv(s) && Next(s, s')
    ensures Inv(s')
  {
    if task :| Submit(s, task, s') {
      HeldWakes(s.ws, s'.ws, COND, InHandOf);
      CoveredSignal(|s.queue|, s.ws, s'.ws, COND);
    } else if i: nat :| i < |s.ws| && WorkerStep(s, i, s') {
      WorkerKeepsInv(s, i, s');
    } else {
      HeldWakes(s.ws, s'.ws, COND, InHandOf);
      CoveredWakes(|s.queue|, s.ws, s'.ws, COND, COND);
    }
  }

  lemma {:induction false} RunKeepsInv(run: seq<State>, k: nat)
    requires IsRun(run) && Init(run[0]) && k < |run|
    ensures Inv(run[k])
  {
    if k == 0 {
      HeldEmpty(run[0].ws, InHandOf);
    } else {
      RunKeepsInv(run, k - 1);
      NextKeepsInv(run[k - 1], run[k]);
    }
  }

  /** No reachable state has a queued task and every worker asleep. */
  lemma QueuedMeansAwake(run: seq<State>, k: nat) returns (i: nat)
    requires IsRun(run) && Init(run[0]) && k < |run|
    requires run[k].queue != [] && |run[k].ws| > 0
    ensures i < |run[k].ws| && CanRun(run[k].ws[i])
  {
    RunKeepsInv(run, k);
    i := SomeRunnable(|run[k].queue|, run[k].ws, COND);
  }

  // ----- what was submitted

  /** A step that submits one task, or nothing. */
  ghost predicate StepSubmits(s: State, input: seq<int>, s': State) {
    || (|input| == 1 && Submit(s, input[0], s'))
    || (input == [] && (SomeWorker(s, s') || Spurious(s, s')))
  }

  /** `inputs[k]` is what step `k` of the run submits. */
  ghost predicate Submits(run: seq<State>, inputs: seq<seq<int>>) {
    |run| == |inputs| + 1 && forall k :: 0 <= k < |inputs| ==> StepSubmits(run[k], inputs[k], run[k + 1])
  }

  function Joined(inputs: seq<seq<int>>): seq<int> {
    if inputs == [] then [] else Joined(inputs[..|inputs| - 1]) + inputs[|inputs| - 1]
  }

  lemma StepLogs(s: State, input: seq<int>, s': State)
    requires Inv(s) && StepSubmits(s, input, s')
    ensures Inv(s') && s'.submitted == s.submitted + input
  {
    assert Next(s, s') by {
      if |input| == 1 { assert Submit(s, input[0], s'); }
    }
    NextKeepsInv(s, s');
    assert |input| == 1 ==> input == [input[0]];
    assert s.submitted + [] == s.submitted;
  }

  /** The tasks taken so far and those still queued are the tasks that the accepting thread has submitted, in order. */
  lemma {:induction false} SubmittedInOrder(run: seq<State>, inputs: seq<seq<int>>, k: nat)
    requires Submits(run, inputs) && Init(run[0]) && k < |run|
    ensures Inv(run[k]) && run[k].taken + run[k].queue == run[k].submitted == Joined(inputs[..k])
  {
    if k == 0 {
      HeldEmpty(run[0].ws, InHandOf);
    } else {
      SubmittedInOrder(run, inputs, k - 1);
      StepLogs(run[k - 1], inputs[k - 1], run[k]);
      assert inputs[..k][..k - 1] == inputs[..k - 1] && inputs[..k][k - 1] == inputs[k - 1];
    }
  }

  /** Once the pool has drained, exactly the tasks of the accepting thread have been executed, once each. */
  lemma DrainedMeansExecuted(run: seq<State>, inputs: seq<seq<int>>)
    requires Submits(run, inputs) && Init(run[0]) && Drained(run[|run| - 1])
    ensures run[|run| - 1].taken == Joined(inputs) && run[|run| - 1].executed == multiset(Joined(inputs))
  {
    SubmittedInOrder(run, inputs, |inputs|);
    assert inputs[..|inputs|] == inputs;
    DrainedAll(run[|run| - 1]);
  }

  // ----- the workers alone, without new tasks and spurious wakeups

  function WeightOf(w: Worker): int {
    if w.Execute? then 1 else 0
  }

  predicate Drained(s: State) {
    s.queue == [] && forall i :: 0 <= i < |s.ws| ==> s.ws[i].at.Fetch?
  }

  ghost predicate SomeWorker(s: State, s': State) {
    exists i: nat :: i < |s.ws| && WorkerStep(s, i, s')
  }

  ghost predicate WorkersRun(run: seq<State>) {
    |run| > 0 && forall k :: 0 < k < |run| ==> SomeWorker(run[k - 1], run[k])
  }

  /** A bound on the steps that the workers can still take. */
  function StepsLeft(s: State): nat {
    TotalZero(s.ws, WeightOf);
    2 * |s.queue| + Total(s.ws, WeightOf) + RunnableCount(s.ws)
  }

  lemma WorkerUsesSteps(s: State, i: nat, s': State)
    requires i < |s.ws| && WorkerStep(s, i, s')
    ensures StepsLeft(s') < StepsLeft(s) && |s'.ws| == |s.ws| && s'.submitted == s.submitted
  {
    var t' := s'.ws[i];
    assert s'.ws == s.ws[i := t'];
    TotalUpdate(s.ws, i, t', WeightOf);
    RunnableUpdate(s.ws, i, t');
  }

  /** If every task returns, the workers stop after a bounded number of steps, under any schedule. */
  lemma {:induction false} WorkersRunBounded(run: seq<State>, k: nat)
    requires WorkersRun(run) && Inv(run[0]) && k < |run|
    ensures k + StepsLeft(run[k]) <= StepsLeft(run[0])
    ensures Inv(run[k]) && |run[k].ws| == |run[0].ws| && run[k].submitted == run[0].submitted
  {
    if k > 0 {
      WorkersRunBounded(run, k - 1);
      assert SomeWorker(run[k - 1], run[k]);
      var i: nat :| i < |run[k - 1].ws| && WorkerStep(run[k - 1], i, run[k]);
      WorkerUsesSteps(run[k - 1], i, run[k]);
      WorkerKeepsInv(run[k - 1], i, run[k]);
    }
  }

  /** While anything is queued or in hand, some worker can take or finish a task. */
  lemma DrainStep(s: State) returns (i: nat, s': State)
    requires Inv(s) && |s.ws| > 0 && !Drained(s)
    ensures i < |s.ws| && WorkerStep(s, i, s')
  {
    if k: nat :| k < |s.ws| && s.ws[k].at.Execute? {
      i := k;
      s' := s.(executed := s.executed + multiset{s.ws[i].at.task}, ws := s.ws[i := Thread(Running, Fetch)]);
    } else {
      i := SomeRunnable(|s.queue|, s.ws, COND);
      s' := s.(queue := s.queue[1..], taken := s.taken + [s.queue[0]],
               ws := s.ws[i := Thread(Running, Execute(s.queue[0]))]);
    }
  }

  lemma DrainedAll(s: State)
    requires Inv(s) && Drained(s)
    ensures s.taken == s.submitted && s.executed == multiset(s.submitted)
  {
    HeldEmpty(s.ws, InHandOf);
    assert s.submitted == s.taken;
  }

  ghost predicate Stopped(s: State) {
    forall s' :: !SomeWorker(s, s')
  }

  /** When the workers have stopped, every submitted task has been taken in order and executed once: so every schedule
  of the workers, followed as long as it can be, executes everything, if every task returns. */
  lemma MaximalRunDrains(run: seq<State>)
    requires WorkersRun(run) && Inv(run[0]) && |run[0].ws| > 0
    requires Stopped(run[|run| - 1])
    ensures var last := run[|run| - 1];
            Drained(last) && last.taken == run[0].submitted && last.executed == multiset(run[0].submitted)
  {
    var s := run[|run| - 1];
    WorkersRunBounded(run, |run| - 1);
    if !Drained(s) {
      var i, s' := DrainStep(s);
      assert SomeWorker(s, s');
    }
    DrainedAll(s);
  }

  /** Such a schedule exists from any state of any run. */
  lemma {:induction false} Drain(s: State) returns (run: seq<State>)
    requires Inv(s) && |s.ws| > 0
    ensures WorkersRun(run) && run[0] == s && Drained(run[|run| - 1])
    ensures run[|run| - 1].taken == s.submitted && run[|run| - 1].executed == multiset(s.submitted)
    decreases StepsLeft(s)
  {
    if Drained(s) {
      DrainedAll(s);
      return [s];
    }
    var i, s' := DrainStep(s);
    WorkerUsesSteps(s, i, s');
    WorkerKeepsInv(s, i, s');
    var rest := Drain(s');
    assert SomeWorker(s, s');
    Runs.Prepend(SomeWorker, s, rest);
    run := [s] + rest;
  }
}
