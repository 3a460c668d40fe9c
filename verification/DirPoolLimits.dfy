/** How large a tree is safe for the directory pool, exactly: runs that go wrong for every capacity, every number of
workers and every larger tree, beside the theorems that smaller trees are safe. */
module DirPoolLimits {
  import opened CondVar
  import opened DirTree
  import opened DirPool
  import opened DirPoolRuns
  import opened DirPoolProgress

  // ----- single steps while every worker is running, so that signals wake nobody

  ghost predicate AllRunning(s: State) {
    forall i :: 0 <= i < |s.ws| ==> s.ws[i].mode == Running
  }

  /** Worker `i` goes on at `pc`. */
  function Moved(s: State, i: nat, pc: Pc): State
    requires i < |s.ws|
  {
    s.(ws := s.ws[i := Thread(Running, pc)])
  }

  /** What worker `i` makes of a subdirectory: it is counted and about to be queued. */
  lemma ReadStep(c: Config, s: State, i: nat, path: string, items: seq<Item>)
    requires i < |s.ws| && s.ws[i] == Thread(Running, Scan(path, items))
    requires items != [] && Subdirectory(items[0])
    ensures var pc := Enqueue(Task(FullPath(path, items[0].name), items[0].node), path, items[1..]);
            Next(c, s, Moved(s, i, pc).(counts := Plus(s.counts, Counts(0, 1, 0))))
  {
    var pc := Enqueue(Task(FullPath(path, items[0].name), items[0].node), path, items[1..]);
    assert EntryEffect(path, items) == (Counts(0, 1, 0), pc);
    assert WorkerStep(c, s, i, Moved(s, i, pc).(counts := Plus(s.counts, Counts(0, 1, 0))));
  }

  lemma StoreStep(c: Config, s: State, i: nat, sub: Task, path: string, items: seq<Item>)
    requires AllRunning(s) && i < |s.ws| && s.ws[i].at == Enqueue(sub, path, items) && |s.queue| < c.cap
    ensures Next(c, s, Moved(s, i, Scan(path, items)).(queue := s.queue + [sub]))
  {
    var s' := Moved(s, i, Scan(path, items)).(queue := s.queue + [sub]);
    assert EnqueueStep(c, s, i, sub, path, items, s');
    assert WorkerStep(c, s, i, s');
  }

  lemma DropStep(c: Config, s: State, i: nat, sub: Task, path: string, items: seq<Item>)
    requires AllRunning(s) && i < |s.ws| && s.ws[i].at == Enqueue(sub, path, items) && |s.queue| >= c.cap && s.done
    ensures Next(c, s, Moved(s, i, Scan(path, items)).(dropped := s.dropped + [sub]))
  {
    var s' := Moved(s, i, Scan(path, items)).(dropped := s.dropped + [sub]);
    assert EnqueueStep(c, s, i, sub, path, items, s');
    assert WorkerStep(c, s, i, s');
  }

  lemma SleepStep(c: Config, s: State, i: nat)
    requires i < |s.ws| && CanRun(s.ws[i]) && s.ws[i].at.Enqueue? && |s.queue| >= c.cap && !s.done
    ensures Next(c, s, s.(ws := s.ws[i := Thread(Asleep(NOT_FULL), s.ws[i].at)]))
  {
    var pc := s.ws[i].at;
    var s' := s.(ws := s.ws[i := Thread(Asleep(NOT_FULL), pc)]);
    assert EnqueueStep(c, s, i, pc.sub, pc.path, pc.items, s');
    assert WorkerStep(c, s, i, s');
  }

  lemma TakeStep(c: Config, s: State, i: nat)
    requires AllRunning(s) && i < |s.ws| && s.ws[i].at.Dequeue? && s.queue != []
    ensures Next(c, s, Moved(s, i, Opened(s.queue[0])).(queue := s.queue[1..]))
  {
    var s' := Moved(s, i, Opened(s.queue[0])).(queue := s.queue[1..]);
    assert DequeueStep(s, i, s');
    assert WorkerStep(c, s, i, s');
  }

  // ----- the trees

  const PLAIN := Directory([Item("f", Regular(""))])
  const CHILD := Item("c", PLAIN)
  const NESTED := Directory([CHILD])

  /** Distinct names, one letter longer each. */
  function NameOf(i: nat): string {
    seq(i + 1, _ => 's')
  }

  lemma NotSkipped(i: nat)
    ensures !Skipped(NameOf(i))
  {
    assert NameOf(i)[0] == 's';
  }

  /** `nested` subdirectories that hold one more, then `plain` ones that hold a file, from number `i` on. */
  function Entries(i: nat, nested: nat, plain: nat): seq<Item>
    decreases nested + plain
  {
    if nested > 0 then [Item(NameOf(i), NESTED)] + Entries(i + 1, nested - 1, plain)
    else if plain > 0 then [Item(NameOf(i), PLAIN)] + Entries(i + 1, 0, plain - 1)
    else []
  }

  function Tree(cap: nat, nested: nat, plain: nat): Config {
    Config(cap, Task("d", Directory(Entries(0, nested, plain))))
  }

  lemma PlainCounts(path: string)
    ensures CountDir(path, PLAIN).files == 1 && CountDir(path, PLAIN).dirs == 0
  {
    var f := Item("f", Regular(""));
    assert [f][1..] == [];
    assert CountItems(path, [f]) == Plus(CountItem(path, f), CountItems(path, []));
  }

  lemma NestedCounts(path: string)
    ensures CountNode(path, NESTED).dirs == 2
  {
    PlainCounts(FullPath(path, "c"));
    assert [CHILD][1..] == [];
    assert CountItem(path, CHILD) == CountNode(FullPath(path, "c"), PLAIN);
    assert CountItems(path, [CHILD]) == Plus(CountItem(path, CHILD), CountItems(path, []));
  }

  lemma {:induction false} EntriesCount(i: nat, nested: nat, plain: nat)
    ensures CountItems("d", Entries(i, nested, plain)).dirs == 2 * nested + plain
    decreases nested + plain
  {
    var path := FullPath("d", NameOf(i));
    NotSkipped(i);
    if nested > 0 {
      FirstCount(i, NESTED, Entries(i + 1, nested - 1, plain));
      NestedCounts(path);
      EntriesCount(i + 1, nested - 1, plain);
    } else if plain > 0 {
      FirstCount(i, PLAIN, Entries(i + 1, 0, plain - 1));
      PlainCounts(path);
      EntriesCount(i + 1, 0, plain - 1);
    }
  }

  lemma FirstCount(i: nat, n: Node, rest: seq<Item>)
    ensures CountItems("d", [Item(NameOf(i), n)] + rest) ==
            Plus(CountNode(FullPath("d", NameOf(i)), n), CountItems("d", rest))
  {
    var items := [Item(NameOf(i), n)] + rest;
    NotSkipped(i);
    assert items[0] == Item(NameOf(i), n) && items[1..] == rest;
  }

  // ----- the states

  function SubPath(i: nat): string {
    FullPath("d", NameOf(i))
  }

  /** A worker that has read the nested subdirectory `i` and holds its child. */
  function HoldsChild(i: nat): Pc {
    Enqueue(Task(FullPath(SubPath(i), "c"), PLAIN), SubPath(i), [])
  }

  /** The first worker at `pc`, the next `held` ones with a child in hand, the others at the queue. */
  function Crew(workers: nat, pc: Pc, held: nat): seq<Thread<Pc>> {
    seq(workers, i requires 0 <= i < workers =>
      Thread(Running, if i == 0 then pc else if i <= held then HoldsChild(i - 1) else Dequeue))
  }

  function PlainTasks(i: nat, n: nat): seq<Task> {
    if n == 0 then [] else PlainTasks(i, n - 1) + [Task(SubPath(i + n - 1), PLAIN)]
  }

  lemma {:induction false} PlainTasksLength(i: nat, n: nat)
    ensures |PlainTasks(i, n)| == n
  {
    if n > 0 { PlainTasksLength(i, n - 1); }
  }

  /** main's part of a state that the workers below do not change. */
  datatype Stage = Stage(done: bool, main: Main)

  function At(stage: Stage, queue: seq<Task>, dirs: nat, ws: seq<Thread<Pc>>): State {
    State(queue, stage.done, Counts(0, dirs, 0), ws, stage.main, [])
  }

  const POLLING := Stage(false, Check)
  const SETTING := Stage(false, SetDone)
  const JOINING := Stage(true, Join)

  /** The first worker has the root open. */
  function Opening(workers: nat, nested: nat, plain: nat, stage: Stage): State {
    At(stage, [], 0, Crew(workers, Scan("d", Entries(0, nested, plain)), 0))
  }

  lemma RootTaken(cap: nat, workers: nat, nested: nat, plain: nat)
    requires cap > 0 && workers > 0
    ensures Reachable(Tree(cap, nested, plain), workers, Opening(workers, nested, plain, POLLING))
  {
    var c, ws := Tree(cap, nested, plain), Crew(workers, Dequeue, 0);
    var s0, s1 := At(Stage(false, Seed), [], 0, ws), At(POLLING, [c.root], 0, ws);
    assert Reachable(c, workers, s0) by {
      var run := [s0];
      assert IsRun(c, run) && Init(run[0]) && run[|run| - 1] == s0;
    }
    assert MainStep(c, s0, s1);
    ReachNext(c, workers, s0, s1);
    TakeStep(c, s1, 0);
    var s2 := Moved(s1, 0, Opened(c.root)).(queue := s1.queue[1..]);
    ReachNext(c, workers, s1, s2);
    assert s2.ws == Crew(workers, Scan("d", Entries(0, nested, plain)), 0);
    assert s2 == Opening(workers, nested, plain, POLLING);
  }

  /** main sees the queue empty twice while the first worker holds the root. */
  lemma SeenEmptyTwice(cap: nat, workers: nat, nested: nat, plain: nat)
    requires cap > 0 && workers > 0
    ensures Reachable(Tree(cap, nested, plain), workers, Opening(workers, nested, plain, SETTING))
  {
    var c := Tree(cap, nested, plain);
    RootTaken(cap, workers, nested, plain);
    var s0, s1 := Opening(workers, nested, plain, POLLING), Opening(workers, nested, plain, Stage(false, Recheck));
    var s2 := Opening(workers, nested, plain, SETTING);
    assert MainStep(c, s0, s1);
    ReachNext(c, workers, s0, s1);
    assert MainStep(c, s1, s2);
    ReachNext(c, workers, s1, s2);
  }

  /** main then sets `done`, although nothing has been counted yet. */
  lemma EarlyDone(cap: nat, workers: nat, nested: nat, plain: nat)
    requires cap > 0 && workers > 0
    ensures Reachable(Tree(cap, nested, plain), workers, Opening(workers, nested, plain, JOINING))
  {
    var c := Tree(cap, nested, plain);
    SeenEmptyTwice(cap, workers, nested, plain);
    var s, s' := Opening(workers, nested, plain, SETTING), Opening(workers, nested, plain, JOINING);
    assert MainStep(c, s, s');
    ReachNext(c, workers, s, s');
  }

  // ----- first phase: every other worker takes a nested subdirectory and finds its child

  /** `j` workers hold a child, the first worker reads on. */
  function Nesting(workers: nat, nested: nat, plain: nat, stage: Stage, j: nat): State
    requires j <= nested
  {
    At(stage, [], 2 * j, Crew(workers, Scan("d", Entries(j, nested - j, plain)), j))
  }

  /** The first worker has counted nested subdirectory `j` and holds it. */
  function NestedHeld(workers: nat, nested: nat, plain: nat, stage: Stage, j: nat): State
    requires j < nested
  {
    var pc := Enqueue(Task(SubPath(j), NESTED), "d", Entries(j + 1, nested - j - 1, plain));
    At(stage, [], 2 * j + 1, Crew(workers, pc, j))
  }

  /** It is in the queue. */
  function NestedQueued(workers: nat, nested: nat, plain: nat, stage: Stage, j: nat): State
    requires j < nested
  {
    At(stage, [Task(SubPath(j), NESTED)], 2 * j + 1, Crew(workers, Scan("d", Entries(j + 1, nested - j - 1, plain)), j))
  }

  /** Worker `j + 1` has opened it. */
  function NestedOpened(workers: nat, nested: nat, plain: nat, stage: Stage, j: nat): State
    requires j < nested < workers
  {
    Moved(NestedQueued(workers, nested, plain, stage, j), j + 1, Scan(SubPath(j), [CHILD])).(queue := [])
  }

  lemma FindNested(c: Config, workers: nat, nested: nat, plain: nat, stage: Stage, j: nat)
    requires j < nested < workers
    ensures Next(c, Nesting(workers, nested, plain, stage, j), NestedHeld(workers, nested, plain, stage, j))
  {
    var s, s' := Nesting(workers, nested, plain, stage, j), NestedHeld(workers, nested, plain, stage, j);
    var items := Entries(j, nested - j, plain);
    assert items[0] == Item(NameOf(j), NESTED) && items[1..] == Entries(j + 1, nested - j - 1, plain);
    NotSkipped(j);
    ReadStep(c, s, 0, "d", items);
    assert s'.ws == s.ws[0 := s'.ws[0]];
  }

  lemma StoreNested(c: Config, workers: nat, nested: nat, plain: nat, stage: Stage, j: nat)
    requires c.cap > 0 && j < nested < workers
    ensures Next(c, NestedHeld(workers, nested, plain, stage, j), NestedQueued(workers, nested, plain, stage, j))
  {
    var s, s' := NestedHeld(workers, nested, plain, stage, j), NestedQueued(workers, nested, plain, stage, j);
    var sub, rest := Task(SubPath(j), NESTED), Entries(j + 1, nested - j - 1, plain);
    StoreStep(c, s, 0, sub, "d", rest);
    assert s'.ws == s.ws[0 := s'.ws[0]];
    assert [] + [sub] == [sub];
    assert s' == Moved(s, 0, Scan("d", rest)).(queue := s.queue + [sub]);
  }

  lemma OpenNested(c: Config, workers: nat, nested: nat, plain: nat, stage: Stage, j: nat)
    requires j < nested < workers
    ensures Next(c, NestedQueued(workers, nested, plain, stage, j), NestedOpened(workers, nested, plain, stage, j))
  {
    var s := NestedQueued(workers, nested, plain, stage, j);
    TakeStep(c, s, j + 1);
    assert s.queue[1..] == [];
  }

  lemma FindChild(c: Config, workers: nat, nested: nat, plain: nat, stage: Stage, j: nat)
    requires j < nested < workers
    ensures Next(c, NestedOpened(workers, nested, plain, stage, j), Nesting(workers, nested, plain, stage, j + 1))
  {
    var s, s' := NestedOpened(workers, nested, plain, stage, j), Nesting(workers, nested, plain, stage, j + 1);
    ReadStep(c, s, j + 1, SubPath(j), [CHILD]);
    assert [CHILD][1..] == [];
    assert s'.ws == s.ws[j + 1 := Thread(Running, HoldsChild(j))];
  }

  lemma OneMoreNested(c: Config, workers: nat, nested: nat, plain: nat, stage: Stage, j: nat)
    requires c.cap > 0 && j < nested < workers && Reachable(c, workers, Nesting(workers, nested, plain, stage, j))
    ensures Reachable(c, workers, Nesting(workers, nested, plain, stage, j + 1))
  {
    var s1, s2 := NestedHeld(workers, nested, plain, stage, j), NestedQueued(workers, nested, plain, stage, j);
    var s3 := NestedOpened(workers, nested, plain, stage, j);
    FindNested(c, workers, nested, plain, stage, j);
    ReachNext(c, workers, Nesting(workers, nested, plain, stage, j), s1);
    StoreNested(c, workers, nested, plain, stage, j);
    ReachNext(c, workers, s1, s2);
    OpenNested(c, workers, nested, plain, stage, j);
    ReachNext(c, workers, s2, s3);
    FindChild(c, workers, nested, plain, stage, j);
    ReachNext(c, workers, s3, Nesting(workers, nested, plain, stage, j + 1));
  }

  lemma {:induction false} AllNested(c: Config, workers: nat, nested: nat, plain: nat, stage: Stage, j: nat)
    requires c.cap > 0 && j <= nested < workers
    requires Reachable(c, workers, Nesting(workers, nested, plain, stage, 0))
    ensures Reachable(c, workers, Nesting(workers, nested, plain, stage, j))
  {
    if j > 0 {
      AllNested(c, workers, nested, plain, stage, j - 1);
      OneMoreNested(c, workers, nested, plain, stage, j - 1);
    }
  }

  // ----- second phase: the first worker fills the queue with plain subdirectories

  /** `j` plain subdirectories are queued. */
  function Filling(workers: nat, nested: nat, plain: nat, stage: Stage, j: nat): State
    requires j <= plain
  {
    var pc := Scan("d", Entries(nested + j, 0, plain - j));
    At(stage, PlainTasks(nested, j), 2 * nested + j, Crew(workers, pc, nested))
  }

  /** The next one is counted and in the first worker's hands. */
  function Holding(workers: nat, nested: nat, plain: nat, stage: Stage, j: nat): State
    requires j < plain
  {
    var pc := Enqueue(Task(SubPath(nested + j), PLAIN), "d", Entries(nested + j + 1, 0, plain - j - 1));
    At(stage, PlainTasks(nested, j), 2 * nested + j + 1, Crew(workers, pc, nested))
  }

  lemma FindPlain(c: Config, workers: nat, nested: nat, plain: nat, stage: Stage, j: nat)
    requires nested < workers && j < plain
    ensures Next(c, Filling(workers, nested, plain, stage, j), Holding(workers, nested, plain, stage, j))
  {
    var s, s' := Filling(workers, nested, plain, stage, j), Holding(workers, nested, plain, stage, j);
    var items := Entries(nested + j, 0, plain - j);
    assert items[0] == Item(NameOf(nested + j), PLAIN) && items[1..] == Entries(nested + j + 1, 0, plain - j - 1);
    NotSkipped(nested + j);
    ReadStep(c, s, 0, "d", items);
    assert s'.ws == s.ws[0 := s'.ws[0]];
  }

  lemma StorePlain(c: Config, workers: nat, nested: nat, plain: nat, stage: Stage, j: nat)
    requires nested < workers && j < plain && j < c.cap
    ensures Next(c, Holding(workers, nested, plain, stage, j), Filling(workers, nested, plain, stage, j + 1))
  {
    var s, s' := Holding(workers, nested, plain, stage, j), Filling(workers, nested, plain, stage, j + 1);
    PlainTasksLength(nested, j);
    StoreStep(c, s, 0, s.ws[0].at.sub, "d", s.ws[0].at.items);
    assert s'.ws == s.ws[0 := s'.ws[0]];
  }

  lemma OneMorePlain(c: Config, workers: nat, nested: nat, plain: nat, stage: Stage, j: nat)
    requires nested < workers && j < plain && j < c.cap
    requires Reachable(c, workers, Filling(workers, nested, plain, stage, j))
    ensures Reachable(c, workers, Filling(workers, nested, plain, stage, j + 1))
  {
    var s := Holding(workers, nested, plain, stage, j);
    FindPlain(c, workers, nested, plain, stage, j);
    ReachNext(c, workers, Filling(workers, nested, plain, stage, j), s);
    StorePlain(c, workers, nested, plain, stage, j);
    ReachNext(c, workers, s, Filling(workers, nested, plain, stage, j + 1));
  }

  lemma {:induction false} AllFilled(c: Config, workers: nat, nested: nat, plain: nat, stage: Stage, j: nat)
    requires nested < workers && j <= c.cap && j <= plain
    requires Reachable(c, workers, Filling(workers, nested, plain, stage, 0))
    ensures Reachable(c, workers, Filling(workers, nested, plain, stage, j))
  {
    if j > 0 {
      AllFilled(c, workers, nested, plain, stage, j - 1);
      OneMorePlain(c, workers, nested, plain, stage, j - 1);
    }
  }

  /** The queue is full and the first worker holds one more. */
  lemma Full(c: Config, workers: nat, nested: nat, plain: nat, stage: Stage)
    requires 0 < c.cap < plain && nested < workers
    requires Reachable(c, workers, Opening(workers, nested, plain, stage))
    ensures Reachable(c, workers, Holding(workers, nested, plain, stage, c.cap))
    ensures |Holding(workers, nested, plain, stage, c.cap).queue| == c.cap
  {
    assert Opening(workers, nested, plain, stage) == Nesting(workers, nested, plain, stage, 0);
    AllNested(c, workers, nested, plain, stage, nested);
    assert Nesting(workers, nested, plain, stage, nested) == Filling(workers, nested, plain, stage, 0);
    AllFilled(c, workers, nested, plain, stage, c.cap);
    FindPlain(c, workers, nested, plain, stage, c.cap);
    ReachNext(c, workers, Filling(workers, nested, plain, stage, c.cap), Holding(workers, nested, plain, stage, c.cap));
    PlainTasksLength(nested, c.cap);
  }

  // ----- what goes wrong

  /** With more subdirectories than places, a worker has to wait for room. */
  lemma WaitReachable(cap: nat, workers: nat, k: nat) returns (s: State)
    requires 0 < cap < k && workers > 0
    ensures Reachable(Tree(cap, 0, k), workers, s) && !Unblocked(s)
  {
    var c := Tree(cap, 0, k);
    RootTaken(cap, workers, 0, k);
    Full(c, workers, 0, k, POLLING);
    var h := Holding(workers, 0, k, POLLING, cap);
    SleepStep(c, h, 0);
    s := h.(ws := h.ws[0 := Thread(Asleep(NOT_FULL), h.ws[0].at)]);
    ReachNext(c, workers, h, s);
    assert s.ws[0].mode == Asleep(NOT_FULL);
  }

  /** With more subdirectories than places, a run can finish and print too little: `done` is set early, and a directory
  with a file in it is dropped at the full queue. */
  lemma DropLosesCounts(cap: nat, workers: nat, k: nat) returns (s: State)
    requires 0 < cap < k && workers > 0
    ensures Reachable(Tree(cap, 0, k), workers, s) && s.main.Finished?
    ensures s.counts != CountDir(Tree(cap, 0, k).root.path, Tree(cap, 0, k).root.node)
  {
    var c := Tree(cap, 0, k);
    EarlyDone(cap, workers, 0, k);
    Full(c, workers, 0, k, JOINING);
    var h := Holding(workers, 0, k, JOINING, cap);
    var pc := h.ws[0].at;
    DropStep(c, h, 0, pc.sub, "d", pc.items);
    var d := Moved(h, 0, Scan("d", pc.items)).(dropped := h.dropped + [pc.sub]);
    ReachNext(c, workers, h, d);
    s := DoneFinishes(c, workers, d);
    assert s.dropped[0] == pc.sub;
    Incomplete(c, workers, s);
  }

  lemma Incomplete(c: Config, workers: nat, s: State)
    requires Reachable(c, workers, s) && workers > 0 && s.main.Finished?
    requires |s.dropped| > 0 && s.dropped[0].node == PLAIN
    ensures s.counts != CountDir(c.root.path, c.root.node)
  {
    var run: seq<State> :| IsRun(c, run) && Init(run[0]) && |run[0].ws| == workers && run[|run| - 1] == s;
    FinishedTotals(c, run);
    PlainCounts(s.dropped[0].path);
  }

  lemma EveryoneHolds(workers: nat, plain: nat, stage: Stage, j: nat)
    requires workers > 0 && j < plain
    ensures var s := Holding(workers, workers - 1, plain, stage, j);
            |s.ws| == workers && forall i :: 0 <= i < |s.ws| ==> s.ws[i].mode == Running && s.ws[i].at.Enqueue?
  {
  }

  /** With two more subdirectories per further worker, every worker can be caught with a directory in hand. */
  lemma JamReachable(cap: nat, workers: nat, plain: nat) returns (s: State)
    requires 0 < cap < plain && workers > 0
    ensures Reachable(Tree(cap, workers - 1, plain), workers, s) && Jammed(Tree(cap, workers - 1, plain), s) && !s.done
  {
    RootTaken(cap, workers, workers - 1, plain);
    Full(Tree(cap, workers - 1, plain), workers, workers - 1, plain, POLLING);
    s := Holding(workers, workers - 1, plain, POLLING, cap);
    EveryoneHolds(workers, plain, POLLING, cap);
    assert s.ws[0].at.Enqueue?;
  }

  /** The workers fall asleep one by one. */
  lemma {:induction false} FallAsleep(c: Config, workers: nat, s: State, i: nat) returns (s': State)
    requires Reachable(c, workers, s) && i <= |s.ws| && |s.queue| >= c.cap && !s.done
    requires forall k :: 0 <= k < |s.ws| ==> s.ws[k].mode == Running && s.ws[k].at.Enqueue?
    ensures Reachable(c, workers, s') && s' == s.(ws := s'.ws) && |s'.ws| == |s.ws|
    ensures forall k :: 0 <= k < |s.ws| ==>
      s'.ws[k] == if k < i then Thread(Asleep(NOT_FULL), s.ws[k].at) else s.ws[k]
  {
    s' := s;
    if i > 0 {
      var m := FallAsleep(c, workers, s, i - 1);
      SleepStep(c, m, i - 1);
      s' := m.(ws := m.ws[i - 1 := Thread(Asleep(NOT_FULL), m.ws[i - 1].at)]);
      ReachNext(c, workers, m, s');
    }
  }

  /** The same after `done`: main has seen the queue empty twice, the workers then fill it and fall asleep, and set_done
  does not wake them. */
  lemma DoneJamReachable(cap: nat, workers: nat, plain: nat) returns (s: State)
    requires 0 < cap < plain && workers > 0
    ensures Reachable(Tree(cap, workers - 1, plain), workers, s) && Jammed(Tree(cap, workers - 1, plain), s) && s.done
  {
    var c := Tree(cap, workers - 1, plain);
    SeenEmptyTwice(cap, workers, workers - 1, plain);
    Full(c, workers, workers - 1, plain, SETTING);
    var h := Holding(workers, workers - 1, plain, SETTING, cap);
    EveryoneHolds(workers, plain, SETTING, cap);
    var m := FallAsleep(c, workers, h, workers);
    s := m.(done := true, main := Join);
    assert MainStep(c, m, s);
    ReachNext(c, workers, m, s);
    assert s.ws[0].at.Enqueue?;
  }

  // ----- how large a tree is safe

  /** A pool with this capacity over a tree with `k` subdirectories. */
  predicate Sized(c: Config, cap: nat, k: nat) {
    c.cap == cap && CountDir(c.root.path, c.root.node).dirs == k
  }

  lemma TreeSized(cap: nat, nested: nat, plain: nat)
    ensures Sized(Tree(cap, nested, plain), cap, 2 * nested + plain)
  {
    EntriesCount(0, nested, plain);
  }

  /** For every number of workers: nobody ever waits for room or drops a directory, over any tree with `k`
  subdirectories, exactly when `k` is at most the size of the queue. */
  lemma NeverBlocksIff(cap: nat, workers: nat, k: nat)
    requires cap > 0 && workers > 0
    ensures k <= cap <==> forall c, s :: Sized(c, cap, k) && Reachable(c, workers, s) ==> Unblocked(s)
  {
    if k <= cap {
      forall c, s | Sized(c, cap, k) && Reachable(c, workers, s) ensures Unblocked(s) {
        var run: seq<State> :| IsRun(c, run) && Init(run[0]) && |run[0].ws| == workers && run[|run| - 1] == s;
        FittingTree(c, run, |run| - 1);
      }
    } else {
      TreeSized(cap, 0, k);
      var s := WaitReachable(cap, workers, k);
    }
  }

  /** Every finished run over every tree with `k` subdirectories prints the exact totals, exactly when `k` is at most
  the size of the queue. */
  lemma ExactTotalsIff(cap: nat, workers: nat, k: nat)
    requires cap > 0 && workers > 0
    ensures k <= cap <==>
            forall c, s :: Sized(c, cap, k) && Reachable(c, workers, s) && s.main.Finished? ==>
              Agrees(s.counts, c.root.path, c.root.node)
  {
    if k <= cap {
      forall c, s | Sized(c, cap, k) && Reachable(c, workers, s) && s.main.Finished?
        ensures Agrees(s.counts, c.root.path, c.root.node)
      {
        var run: seq<State> :| IsRun(c, run) && Init(run[0]) && |run[0].ws| == workers && run[|run| - 1] == s;
        FittingTotals(c, run);
      }
    } else {
      TreeSized(cap, 0, k);
      var s := DropLosesCounts(cap, workers, k);
      assert !Agrees(s.counts, Tree(cap, 0, k).root.path, Tree(cap, 0, k).root.node);
    }
  }

  /** Every reachable state over every tree with `k` subdirectories can still finish, exactly when `k` is at most the
  size of the queue and two for every worker but one. */
  lemma DeadlockFreeIff(cap: nat, workers: nat, k: nat)
    requires cap > 0 && workers > 0
    ensures k <= cap + 2 * workers - 2 <==>
            forall c, s :: Sized(c, cap, k) && Reachable(c, workers, s) ==> CanFinish(c, s)
  {
    if k <= cap + 2 * workers - 2 {
      forall c, s | Sized(c, cap, k) && Reachable(c, workers, s) ensures CanFinish(c, s) {
        var run: seq<State> :| IsRun(c, run) && Init(run[0]) && |run[0].ws| == workers && run[|run| - 1] == s;
        var more := Finish(c, run);
      }
    } else {
      var plain := k - 2 * (workers - 1);
      TreeSized(cap, workers - 1, plain);
      var s := JamReachable(cap, workers, plain);
      JamCannotFinish(Tree(cap, workers - 1, plain), s);
    }
  }
}
