/** The worker pool of homework/statistic_file_with_thread_pool.c as a step relation: workers that take
directories from the bounded queue (`TaskRing.Ring`), count their entries and queue the subdirectories, and a main
thread that sets `done` after seeing the queue empty twice. The queue capacity and the number of workers are
parameters. */
module DirPool {
  import opened CondVar
  import opened DirTree
  import opened TaskRing

  const NOT_EMPTY: nat := 0
  const NOT_FULL: nat := 1

  datatype Task = Task(path: string, node: Node)

  /** A worker: in dequeue_task; reading entries; holding lines still to be added for a file already counted; in
  enqueue_task with a directory already counted; or returned. */
  datatype Pc =
    | Dequeue
    | Scan(path: string, items: seq<Item>)
    | AddLines(lines: nat, path: string, items: seq<Item>)
    | Enqueue(sub: Task, path: string, items: seq<Item>)
    | Exited

  /** main: queueing the root, first look at the queue, second look, about to set done, joining, printed. */
  datatype Main = Seed | Check | Recheck | SetDone | Join | Finished

  datatype Config = Config(cap: nat, root: Task)

  /** `dropped` lists the directories freed because the queue was full after `done`. */
  datatype State = State(queue: seq<Task>, done: bool, counts: Counts, ws: seq<Thread<Pc>>, main: Main,
                         dropped: seq<Task>)

  /** opendir, which follows links. */
  function Opened(t: Task): Pc {
    var dir := Strip(t.node);
    if dir.Directory? then Scan(t.path, dir.items) else Dequeue
  }

  /** dequeue_task, then opendir. */
  ghost predicate DequeueStep(s: State, i: nat, s': State)
    requires i < |s.ws|
  {
    match GetOutcome(s.queue, s.done)
    case NothingYet => s' == s.(ws := s.ws[i := Thread(Asleep(NOT_EMPTY), Dequeue)])
    case NoMore => s' == s.(ws := s.ws[i := Thread(Running, Exited)])
    case Path(t) =>
      && s' == s.(queue := s.queue[1..], ws := s'.ws)
      && Signal(s.ws[i := Thread(Running, Opened(t))], s'.ws, NOT_FULL)
  }

  /** What one directory entry does to the counters and where the worker goes next. */
  function EntryEffect(path: string, items: seq<Item>): (Counts, Pc)
    requires items != []
  {
    if Skipped(items[0].name) then (ZERO, Scan(path, items[1..]))
    else NodeEffect(FullPath(path, items[0].name), Strip(items[0].node), path, items[1..])
  }

  function NodeEffect(p: string, n: Node, path: string, rest: seq<Item>): (Counts, Pc) {
    match n
    case Regular(text) =>
      (Counts(1, 0, 0), if SourcePath(p) then AddLines(Lines(text), path, rest) else Scan(path, rest))
    case Unreadable => (Counts(1, 0, 0), Scan(path, rest))
    case Directory(_) => (Counts(0, 1, 0), Enqueue(Task(p, n), path, rest))
    case Locked => (Counts(0, 1, 0), Enqueue(Task(p, n), path, rest))
    case _ => (ZERO, Scan(path, rest))
  }

  /** enqueue_task. */
  ghost predicate EnqueueStep(c: Config, s: State, i: nat, sub: Task, path: string, items: seq<Item>, s': State)
    requires i < |s.ws|
  {
    match PutOutcome(|s.queue|, c.cap, s.done)
    case MustWait => s' == s.(ws := s.ws[i := Thread(Asleep(NOT_FULL), Enqueue(sub, path, items))])
    case Stored =>
      && s' == s.(queue := s.queue + [sub], ws := s'.ws)
      && Signal(s.ws[i := Thread(Running, Scan(path, items))], s'.ws, NOT_EMPTY)
    case Freed =>
      s' == s.(dropped := s.dropped + [sub], ws := s.ws[i := Thread(Running, Scan(path, items))])
  }

  ghost predicate WorkerStep(c: Config, s: State, i: nat, s': State)
    requires i < |s.ws|
  {
    && CanRun(s.ws[i])
    && match s.ws[i].at
       case Dequeue => DequeueStep(s, i, s')
       case Scan(path, items) =>
         if items == [] then s' == s.(ws := s.ws[i := Thread(Running, Dequeue)])
         else
           var (add, next) := EntryEffect(path, items);
           s' == s.(counts := Plus(s.counts, add), ws := s.ws[i := Thread(Running, next)])
       case AddLines(lines, path, items) =>
         s' == s.(counts := Plus(s.counts, Counts(0, 0, lines)), ws := s.ws[i := Thread(Running, Scan(path, items))])
       case Enqueue(sub, path, items) => EnqueueStep(c, s, i, sub, path, items, s')
       case Exited => false
  }

  ghost predicate MainStep(c: Config, s: State, s': State) {
    match s.main
    case Seed =>
      && |s.queue| < c.cap
      && s' == s.(queue := s.queue + [c.root], main := Check, ws := s'.ws)
      && Signal(s.ws, s'.ws, NOT_EMPTY)
    case Check => s' == s.(main := if s.queue == [] then Recheck else Check)
    case Recheck => s' == s.(main := if s.queue == [] then SetDone else Check)
    case SetDone =>
      && s' == s.(done := true, main := Join, ws := s'.ws)
      && Broadcast(s.ws, s'.ws, NOT_EMPTY)
    case Join =>
      && (forall i :: 0 <= i < |s.ws| ==> s.ws[i].at.Exited?)
      && s' == s.(main := Finished)
    case Finished => false
  }

  ghost predicate Spurious(s: State, s': State) {
    s' == s.(ws := s'.ws) && exists cv: nat :: Wakes(s.ws, s'.ws, cv)
  }

  ghost predicate Next(c: Config, s: State, s': State) {
    || MainStep(c, s, s')
    || (exists i: nat :: i < |s.ws| && WorkerStep(c, s, i, s'))
    || Spurious(s, s')
  }

  ghost predicate Init(s: State) {
    && s == State([], false, ZERO, s.ws, Seed, [])
    && forall i :: 0 <= i < |s.ws| ==> s.ws[i] == Thread(Running, Dequeue)
  }

  ghost predicate IsRun(c: Config, run: seq<State>) {
    |run| > 0 && forall k :: 0 < k < |run| ==> Next(c, run[k - 1], run[k])
  }

  // ----- conservation of the counts

  function TasksWorth(ts: seq<Task>): Counts {
    if ts == [] then ZERO else Plus(CountDir(ts[0].path, ts[0].node), TasksWorth(ts[1..]))
  }

  /** What a worker still has to add for the directory it holds. */
  function PcWorth(pc: Pc): Counts {
    match pc
    case Dequeue => ZERO
    case Scan(path, items) => CountItems(path, items)
    case AddLines(lines, path, items) => Plus(Counts(0, 0, lines), CountItems(path, items))
    case Enqueue(sub, path, items) => Plus(CountDir(sub.path, sub.node), CountItems(path, items))
    case Exited => ZERO
  }

  function WorkersWorth(ws: seq<Thread<Pc>>): Counts {
    if ws == [] then ZERO else Plus(PcWorth(ws[0].at), WorkersWorth(ws[1..]))
  }

  /** Counted so far + queued + held by workers + dropped (+ the root, before it is queued). */
  function Balance(c: Config, s: State): Counts {
    Plus(Plus(s.counts, TasksWorth(s.queue)),
         Plus(WorkersWorth(s.ws),
              Plus(TasksWorth(s.dropped), if s.main.Seed? then CountDir(c.root.path, c.root.node) else ZERO)))
  }

  lemma {:induction false} TasksWorthSnoc(ts: seq<Task>, t: Task)
    ensures TasksWorth(ts + [t]) == Plus(TasksWorth(ts), CountDir(t.path, t.node))
  {
    var us := ts + [t];
    if ts == [] {
      assert us[1..] == [] && us[0] == t;
      PlusZero(CountDir(t.path, t.node));
    } else {
      assert us[1..] == ts[1..] + [t] && us[0] == ts[0];
      TasksWorthSnoc(ts[1..], t);
    }
  }

  lemma PlusSwap(a: Counts, b: Counts, x: Counts, y: Counts, h: Counts)
    requires Plus(a, x) == Plus(b, y)
    ensures Plus(Plus(h, a), x) == Plus(Plus(h, b), y)
  {
    assert Plus(Plus(h, a), x) == Plus(h, Plus(a, x));
    assert Plus(Plus(h, b), y) == Plus(h, Plus(b, y));
  }

  lemma {:induction false} WorkersWorthUpdate(ws: seq<Thread<Pc>>, i: nat, t: Thread<Pc>)
    requires i < |ws|
    ensures Plus(WorkersWorth(ws[i := t]), PcWorth(ws[i].at)) == Plus(WorkersWorth(ws), PcWorth(t.at))
  {
    var us := ws[i := t];
    if i > 0 {
      assert us[1..] == ws[1..][i - 1 := t];
      WorkersWorthUpdate(ws[1..], i - 1, t);
      PlusSwap(WorkersWorth(us[1..]), WorkersWorth(ws[1..]), PcWorth(ws[i].at), PcWorth(t.at), PcWorth(ws[0].at));
    } else {
      assert us[1..] == ws[1..];
    }
  }

  lemma {:induction false} WorkersWorthWakes(ws: seq<Thread<Pc>>, ws': seq<Thread<Pc>>, cv: nat)
    requires Wakes(ws, ws', cv)
    ensures WorkersWorth(ws') == WorkersWorth(ws)
  {
    if ws != [] {
      assert forall i :: 0 <= i < |ws| - 1 ==> ws[1..][i] == ws[i + 1] && ws'[1..][i] == ws'[i + 1];
      WorkersWorthWakes(ws[1..], ws'[1..], cv);
    }
  }

  /** What a worker takes in hand after counting an entry: the lines of a source file, or a directory. */
  function InHand(p: string, n: Node): Counts {
    match n
    case Regular(text) => if SourcePath(p) then Counts(0, 0, Lines(text)) else ZERO
    case Directory(_) => CountDir(p, n)
    case _ => ZERO
  }

  lemma {:induction false} CountedThenInHand(p: string, n: Node, path: string, rest: seq<Item>)
    requires !n.Link?
    ensures CountNode(p, n) == Plus(NodeEffect(p, n, path, rest).0, InHand(p, n))
  {
    PlusZero(NodeEffect(p, n, path, rest).0);
  }

  lemma {:induction false} InHandWorth(p: string, n: Node, path: string, rest: seq<Item>)
    ensures PcWorth(NodeEffect(p, n, path, rest).1) == Plus(InHand(p, n), CountItems(path, rest))
  {
    var next, r := NodeEffect(p, n, path, rest).1, CountItems(path, rest);
    if n.Directory? || n.Locked? {
      assert next.sub.path == p && next.sub.node == n;
      assert CountDir(p, n) == InHand(p, n);
    } else if n.Regular? && SourcePath(p) {
      assert next == AddLines(Lines(n.content), path, rest);
    } else {
      assert next == Scan(path, rest) && InHand(p, n) == ZERO;
      PlusZero(r);
    }
  }

  lemma {:induction false} NodeKeepsWorth(p: string, n: Node, path: string, rest: seq<Item>)
    requires !n.Link?
    ensures Plus(NodeEffect(p, n, path, rest).0, PcWorth(NodeEffect(p, n, path, rest).1)) ==
            Plus(CountNode(p, n), CountItems(path, rest))
  {
    CountedThenInHand(p, n, path, rest);
    InHandWorth(p, n, path, rest);
    PlusAssoc(NodeEffect(p, n, path, rest).0, InHand(p, n), CountItems(path, rest));
  }

  /** Reading an entry moves its worth from the unread entries to the counters and the worker's hands. */
  lemma {:induction false} EntryKeepsWorth(path: string, items: seq<Item>)
    requires items != []
    ensures Plus(EntryEffect(path, items).0, PcWorth(EntryEffect(path, items).1)) == CountItems(path, items)
  {
    var p, n := FullPath(path, items[0].name), Strip(items[0].node);
    StripCounts(p, items[0].node);
    NodeKeepsWorth(p, n, path, items[1..]);
  }

  /** The sum is kept when the counters gain `add` and worker `i` goes from `before` to `after`. */
  lemma Shift(counts: Counts, add: Counts, q: Counts, w: Counts, w': Counts, before: Counts, after: Counts, d: Counts)
    requires Plus(w', before) == Plus(w, after) && Plus(add, after) == before
    ensures Plus(Plus(Plus(counts, add), q), Plus(w', d)) == Plus(Plus(counts, q), Plus(w, d))
  {
  }

  /** The sum is kept when `x` moves from a worker's hands to the queue. */
  lemma Hand(counts: Counts, q: Counts, w: Counts, w': Counts, x: Counts, rest: Counts, d: Counts)
    requires Plus(w', Plus(x, rest)) == Plus(w, rest)
    ensures Plus(Plus(counts, Plus(q, x)), Plus(w', d)) == Plus(Plus(counts, q), Plus(w, d))
    ensures forall e ::
      Plus(Plus(counts, q), Plus(w', Plus(Plus(d, x), e))) == Plus(Plus(counts, q), Plus(w, Plus(d, e)))
  {
  }

  /** The sum is kept when `x` moves from the queue to a worker whose hands were empty. */
  lemma Grab(counts: Counts, q: Counts, w: Counts, w': Counts, x: Counts, d: Counts)
    requires Plus(w', ZERO) == Plus(w, x)
    ensures Plus(Plus(counts, q), Plus(w', d)) == Plus(Plus(counts, Plus(x, q)), Plus(w, d))
  {
  }

  function Rest(c: Config, s: State): Counts {
    Plus(TasksWorth(s.dropped), if s.main.Seed? then CountDir(c.root.path, c.root.node) else ZERO)
  }

  lemma {:induction false} DequeueKeepsBalance(c: Config, s: State, i: nat, s': State)
    requires i < |s.ws| && s.ws[i].at.Dequeue? && DequeueStep(s, i, s')
    ensures Balance(c, s') == Balance(c, s)
  {
    if s.queue == [] {
      var t' := s'.ws[i];
      assert s'.ws == s.ws[i := t'];
      WorkersWorthUpdate(s.ws, i, t');
      PlusZero(WorkersWorth(s.ws));
      PlusZero(WorkersWorth(s'.ws));
    } else {
      var t, t' := s.queue[0], Thread(Running, Opened(s.queue[0]));
      WorkersWorthUpdate(s.ws, i, t');
      WorkersWorthWakes(s.ws[i := t'], s'.ws, NOT_FULL);
      StripCounts(t.path, t.node);
      assert PcWorth(t'.at) == CountDir(t.path, t.node);
      Grab(s.counts, TasksWorth(s'.queue), WorkersWorth(s.ws), WorkersWorth(s'.ws), CountDir(t.path, t.node),
           Rest(c, s));
    }
  }

  /** A worker adds `add` to the counters and moves on. */
  lemma {:induction false} CountingKeepsBalance(c: Config, s: State, i: nat, add: Counts, next: Pc, s': State)
    requires i < |s.ws| && Plus(add, PcWorth(next)) == PcWorth(s.ws[i].at)
    requires s' == s.(counts := Plus(s.counts, add), ws := s.ws[i := Thread(Running, next)])
    ensures Balance(c, s') == Balance(c, s)
  {
    WorkersWorthUpdate(s.ws, i, Thread(Running, next));
    Shift(s.counts, add, TasksWorth(s.queue), WorkersWorth(s.ws), WorkersWorth(s'.ws), PcWorth(s.ws[i].at),
          PcWorth(next), Rest(c, s));
  }

  lemma {:induction false} ScanKeepsBalance(c: Config, s: State, i: nat, s': State)
    requires i < |s.ws| && s.ws[i].at.Scan? && WorkerStep(c, s, i, s')
    ensures Balance(c, s') == Balance(c, s)
  {
    var path, items := s.ws[i].at.path, s.ws[i].at.items;
    if items == [] {
      PlusZero(s.counts);
      PlusZero(ZERO);
      CountingKeepsBalance(c, s, i, ZERO, Dequeue, s');
    } else {
      EntryKeepsWorth(path, items);
      var effect := EntryEffect(path, items);
      CountingKeepsBalance(c, s, i, effect.0, effect.1, s');
    }
  }

  lemma {:induction false} LinesKeepBalance(c: Config, s: State, i: nat, s': State)
    requires i < |s.ws| && s.ws[i].at.AddLines? && WorkerStep(c, s, i, s')
    ensures Balance(c, s') == Balance(c, s)
  {
    var pc := s.ws[i].at;
    CountingKeepsBalance(c, s, i, Counts(0, 0, pc.lines), Scan(pc.path, pc.items), s');
  }

  lemma {:induction false} EnqueueKeepsBalance(c: Config, s: State, i: nat, s': State)
    requires i < |s.ws| && s.ws[i].at.Enqueue?
    requires var pc := s.ws[i].at; EnqueueStep(c, s, i, pc.sub, pc.path, pc.items, s')
    ensures Balance(c, s') == Balance(c, s)
  {
    var pc := s.ws[i].at;
    var x, rest := CountDir(pc.sub.path, pc.sub.node), CountItems(pc.path, pc.items);
    if |s.queue| >= c.cap && !s.done {
      var t' := Thread(Asleep(NOT_FULL), pc);
      WorkersWorthUpdate(s.ws, i, t');
    } else {
      var t' := Thread(Running, Scan(pc.path, pc.items));
      var ws1 := s.ws[i := t'];
      WorkersWorthUpdate(s.ws, i, t');
      Hand(s.counts, TasksWorth(s.queue), WorkersWorth(s.ws), WorkersWorth(ws1), x, rest, Rest(c, s));
      if |s.queue| < c.cap {
        WorkersWorthWakes(ws1, s'.ws, NOT_EMPTY);
        TasksWorthSnoc(s.queue, pc.sub);
      } else {
        Hand(s.counts, TasksWorth(s.queue), WorkersWorth(s.ws), WorkersWorth(ws1), x, rest, TasksWorth(s.dropped));
        TasksWorthSnoc(s.dropped, pc.sub);
      }
    }
  }

  lemma {:induction false} MainKeepsBalance(c: Config, s: State, s': State)
    requires MainStep(c, s, s')
    ensures Balance(c, s') == Balance(c, s)
  {
    match s.main
    case Seed =>
      WorkersWorthWakes(s.ws, s'.ws, NOT_EMPTY);
      TasksWorthSnoc(s.queue, c.root);
    case SetDone => WorkersWorthWakes(s.ws, s'.ws, NOT_EMPTY);
    case _ =>
  }

  /** Every step keeps the sum. */
  lemma NextKeepsBalance(c: Config, s: State, s': State)
    requires Next(c, s, s')
    ensures Balance(c, s') == Balance(c, s)
  {
    if MainStep(c, s, s') {
      MainKeepsBalance(c, s, s');
    } else if i: nat :| i < |s.ws| && WorkerStep(c, s, i, s') {
      match s.ws[i].at
      case Dequeue => DequeueKeepsBalance(c, s, i, s');
      case Scan(_, _) => ScanKeepsBalance(c, s, i, s');
      case AddLines(_, _, _) => LinesKeepBalance(c, s, i, s');
      case Enqueue(_, _, _) => EnqueueKeepsBalance(c, s, i, s');
    } else {
      var cv: nat :| Wakes(s.ws, s'.ws, cv);
      WorkersWorthWakes(s.ws, s'.ws, cv);
    }
  }
}
