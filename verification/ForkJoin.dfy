/** The fork-join statistics of homework/statistic_file.c: every subdirectory gets its own thread, a thread reads
its whole directory first and then joins its children in creation order. The running program is a tree of thread
frames; a schedule is a sequence of positions in that tree, so joins happen with any timing. */
module ForkJoin {
  import opened DirTree

  datatype Result = Null | Value(counts: Counts)

  /** One thread of show_dir: created and about to open its directory; reading it, with `local` counts and the
  children created so far; joining the children left in `kids`, oldest first; or returned. */
  datatype Frame =
    | Start(path: string, node: Node)
    | Scan(path: string, items: seq<Item>, local: Counts, kids: seq<Frame>)
    | Joining(total: Counts, kids: seq<Frame>)
    | Returned(result: Result)

  /** The effect of one entry: what is added to the local counts, and the child created for a directory. */
  function Local(path: string, n: Node): Counts {
    match n
    case Regular(text) => Counts(1, 0, if SourcePath(path) then Lines(text) else 0)
    case Unreadable => Counts(1, 0, 0)
    case Directory(_) => Counts(0, 1, 0)
    case Locked => Counts(0, 1, 0)
    case _ => ZERO
  }

  function Child(path: string, n: Node): seq<Frame> {
    if n.Directory? || n.Locked? then [Start(path, n)] else []
  }

  /** One step of a thread itself. A join on a child that has not returned blocks: the frame is unchanged. */
  function LocalStep(f: Frame): Frame {
    match f
    case Start(path, node) =>
      var dir := Strip(node);
      if dir.Directory? then Scan(path, dir.items, ZERO, []) else Returned(Null)
    case Scan(path, items, local, kids) =>
      if items == [] then Joining(local, kids)
      else if Skipped(items[0].name) then Scan(path, items[1..], local, kids)
      else
        var p, n := FullPath(path, items[0].name), Strip(items[0].node);
        Scan(path, items[1..], Plus(local, Local(p, n)), kids + Child(p, n))
    case Joining(total, kids) =>
      if kids == [] then Returned(Value(total))
      else if kids[0].Returned? then
        Joining(if kids[0].result.Value? then Plus(total, kids[0].result.counts) else total, kids[1..])
      else f
    case Returned(_) => f
  }

  predicate HasKid(f: Frame, k: nat) {
    (f.Scan? || f.Joining?) && k < |f.kids|
  }

  /** The thread at a position of the tree takes a step; a position that names no thread changes nothing. */
  function StepAt(f: Frame, position: seq<nat>): Frame {
    if position == [] then LocalStep(f)
    else if HasKid(f, position[0]) then
      f.(kids := f.kids[position[0] := StepAt(f.kids[position[0]], position[1..])])
    else f
  }

  function Run(f: Frame, schedule: seq<seq<nat>>): Frame
    decreases |schedule|
  {
    if schedule == [] then f else Run(StepAt(f, schedule[0]), schedule[1..])
  }

  // ----- conservation

  /** What a frame has counted plus what its unread entries and its children will add. */
  function Worth(f: Frame): Counts {
    match f
    case Start(path, node) => CountDir(path, node)
    case Scan(path, items, local, kids) => Plus(Plus(local, CountItems(path, items)), WorthAll(kids))
    case Joining(total, kids) => Plus(total, WorthAll(kids))
    case Returned(result) => if result.Value? then result.counts else ZERO
  }

  function WorthAll(kids: seq<Frame>): Counts {
    if kids == [] then ZERO else Plus(Worth(kids[0]), WorthAll(kids[1..]))
  }

  lemma {:induction false} WorthAllUpdate(kids: seq<Frame>, k: nat, f: Frame)
    requires k < |kids| && Worth(f) == Worth(kids[k])
    ensures WorthAll(kids[k := f]) == WorthAll(kids)
  {
    if k > 0 {
      assert kids[k := f][1..] == kids[1..][k - 1 := f];
      WorthAllUpdate(kids[1..], k - 1, f);
    } else {
      assert kids[k := f][1..] == kids[1..];
    }
  }

  lemma {:induction false} WorthAllConcat(kids: seq<Frame>, more: seq<Frame>)
    ensures WorthAll(kids + more) == Plus(WorthAll(kids), WorthAll(more))
  {
    if kids != [] {
      assert (kids + more)[1..] == kids[1..] + more;
      WorthAllConcat(kids[1..], more);
    } else {
      assert kids + more == more;
    }
  }

  lemma {:induction false} WorthOne(f: Frame)
    ensures WorthAll([f]) == Worth(f)
  {
    var one := [f];
    assert one[1..] == [] && one[0] == f;
    assert WorthAll(one) == Plus(Worth(f), ZERO);
    PlusZero(Worth(f));
  }

  /** An entry's count is what it adds locally plus what its child will return. */
  lemma {:induction false} EntryWorth(path: string, n: Node)
    requires !n.Link?
    ensures CountNode(path, n) == Plus(Local(path, n), WorthAll(Child(path, n)))
  {
    if n.Directory? || n.Locked? {
      var kid := Start(path, n);
      assert Worth(kid) == CountDir(path, n);
      WorthOne(kid);
      PlusZero(Counts(0, 1, 0));
    } else {
      assert WorthAll([]) == ZERO;
      PlusZero(Local(path, n));
    }
  }

  lemma {:induction false} ScanKeepsWorth(path: string, items: seq<Item>, local: Counts, kids: seq<Frame>)
    requires items != [] && !Skipped(items[0].name)
    ensures Worth(LocalStep(Scan(path, items, local, kids))) == Worth(Scan(path, items, local, kids))
  {
    var item := items[0];
    var p, n := FullPath(path, item.name), Strip(item.node);
    StripCounts(p, item.node);
    EntryWorth(p, n);
    WorthAllConcat(kids, Child(p, n));
    var here, below, rest := Local(p, n), WorthAll(Child(p, n)), CountItems(path, items[1..]);
    assert CountItems(path, items) == Plus(Plus(here, below), rest);
    PlusMove(local, here, below, rest, WorthAll(kids));
  }

  lemma {:induction false} SkipKeepsWorth(path: string, items: seq<Item>, local: Counts, kids: seq<Frame>)
    requires items != [] && Skipped(items[0].name)
    ensures Worth(LocalStep(Scan(path, items, local, kids))) == Worth(Scan(path, items, local, kids))
  {
    PlusZero(CountItems(path, items[1..]));
    assert CountItems(path, items) == Plus(ZERO, CountItems(path, items[1..]));
  }

  lemma {:induction false} JoinKeepsWorth(total: Counts, kids: seq<Frame>)
    ensures Worth(LocalStep(Joining(total, kids))) == Worth(Joining(total, kids))
  {
    if kids == [] {
      PlusZero(total);
    } else if kids[0].Returned? {
      var rest := WorthAll(kids[1..]);
      assert WorthAll(kids) == Plus(Worth(kids[0]), rest);
      if kids[0].result.Value? {
        PlusAssoc(total, kids[0].result.counts, rest);
      } else {
        PlusZero(rest);
      }
    }
  }

  lemma {:induction false} LocalStepKeepsWorth(f: Frame)
    ensures Worth(LocalStep(f)) == Worth(f)
  {
    match f
    case Start(path, node) =>
      StripCounts(path, node);
      var dir := Strip(node);
      if dir.Directory? {
        PlusZero(CountItems(path, dir.items));
        assert WorthAll([]) == ZERO;
      }
    case Scan(path, items, local, kids) =>
      if items == [] {
        PlusZero(local);
      } else if Skipped(items[0].name) {
        SkipKeepsWorth(path, items, local, kids);
      } else {
        ScanKeepsWorth(path, items, local, kids);
      }
    case Joining(total, kids) => JoinKeepsWorth(total, kids);
    case Returned(_) =>
  }

  /** Every step of every thread keeps the worth of the whole program. */
  lemma {:induction false} StepKeepsWorth(f: Frame, position: seq<nat>)
    ensures Worth(StepAt(f, position)) == Worth(f)
    decreases |position|
  {
    if position == [] {
      LocalStepKeepsWorth(f);
    } else if HasKid(f, position[0]) {
      var kid := f.kids[position[0]];
      StepKeepsWorth(kid, position[1..]);
      WorthAllUpdate(f.kids, position[0], StepAt(kid, position[1..]));
    }
  }

  lemma {:induction false} RunKeepsWorth(f: Frame, schedule: seq<seq<nat>>)
    ensures Worth(Run(f, schedule)) == Worth(f)
    ensures f.Returned? ==> Run(f, schedule) == f
    ensures !f.Start? && f != Returned(Null) ==> Run(f, schedule) != Returned(Null)
    decreases |schedule|
  {
    if schedule != [] {
      StepKeepsWorth(f, schedule[0]);
      RunKeepsWorth(StepAt(f, schedule[0]), schedule[1..]);
    }
  }

  /** Whatever the schedule: once the first thread has returned, its result is the count of the tree, or null
  exactly when the directory could not be opened. */
  lemma {:induction false} ForkJoinCounts(path: string, root: Node, schedule: seq<seq<nat>>)
    ensures var f := Run(Start(path, root), schedule);
            f.Returned? ==> f.result == if Strip(root).Directory? then Value(CountDir(path, root)) else Null
  {
    var f := Start(path, root);
    if schedule != [] {
      var f' := StepAt(f, schedule[0]);
      if f' == f {
        ForkJoinCounts(path, root, schedule[1..]);
      } else {
        RunKeepsWorth(f', schedule[1..]);
        StepKeepsWorth(f, schedule[0]);
      }
    }
  }

  // ----- termination of every schedule

  function NodeWork(n: Node): (w: nat)
    ensures w >= 3
    decreases n
  {
    if n.Directory? then 3 + ItemsWork(n.items) else if n.Link? then NodeWork(n.target) else 3
  }

  function ItemsWork(items: seq<Item>): nat
    decreases items
  {
    if items == [] then 0 else 2 + NodeWork(items[0].node) + ItemsWork(items[1..])
  }

  /** An upper bound on the steps a frame can still take. */
  function Work(f: Frame): nat {
    match f
    case Start(_, node) => NodeWork(node)
    case Scan(_, items, _, kids) => 2 + ItemsWork(items) + WorkAll(kids)
    case Joining(_, kids) => 1 + WorkAll(kids)
    case Returned(_) => 0
  }

  function WorkAll(kids: seq<Frame>): nat {
    if kids == [] then 0 else 1 + Work(kids[0]) + WorkAll(kids[1..])
  }

  lemma {:induction false} WorkAllUpdate(kids: seq<Frame>, k: nat, f: Frame)
    requires k < |kids|
    ensures WorkAll(kids[k := f]) == WorkAll(kids) - Work(kids[k]) + Work(f)
  {
    if k > 0 {
      assert kids[k := f][1..] == kids[1..][k - 1 := f];
      WorkAllUpdate(kids[1..], k - 1, f);
    } else {
      assert kids[k := f][1..] == kids[1..];
    }
  }

  lemma {:induction false} WorkAllConcat(kids: seq<Frame>, more: seq<Frame>)
    ensures WorkAll(kids + more) == WorkAll(kids) + WorkAll(more)
  {
    if kids != [] {
      assert (kids + more)[1..] == kids[1..] + more;
      WorkAllConcat(kids[1..], more);
    } else {
      assert kids + more == more;
    }
  }

  lemma {:induction false} StripWork(n: Node)
    ensures NodeWork(Strip(n)) == NodeWork(n)
  {
    if n.Link? { StripWork(n.target); }
  }

  lemma {:induction false} LocalStepUsesWork(f: Frame)
    requires LocalStep(f) != f
    ensures Work(LocalStep(f)) < Work(f)
  {
    if f.Start? {
      StripWork(f.node);
    } else if f.Scan? && f.items != [] {
      var p, n := FullPath(f.path, f.items[0].name), Strip(f.items[0].node);
      StripWork(f.items[0].node);
      WorkAllConcat(f.kids, Child(p, n));
      var child := Child(p, n);
      if child != [] {
        assert child[1..] == [] && child[0] == Start(p, n);
        assert WorkAll(child) == 1 + NodeWork(n) + WorkAll(child[1..]);
      }
      assert ItemsWork(f.items) == 2 + NodeWork(f.items[0].node) + ItemsWork(f.items[1..]);
    }
  }

  lemma SameKid(kids: seq<Frame>, k: nat)
    requires k < |kids|
    ensures kids[k := kids[k]] == kids
  {
  }

  /** A step that changes anything uses up work. */
  lemma {:induction false} StepUsesWork(f: Frame, position: seq<nat>)
    requires StepAt(f, position) != f
    ensures Work(StepAt(f, position)) < Work(f)
    decreases |position|
  {
    if position == [] {
      LocalStepUsesWork(f);
    } else {
      var kid := f.kids[position[0]];
      var kid' := StepAt(kid, position[1..]);
      SameKid(f.kids, position[0]);
      StepUsesWork(kid, position[1..]);
      WorkAllUpdate(f.kids, position[0], kid');
    }
  }

  /** A program that has not returned can always move: no join waits for a child that is stuck. */
  lemma {:induction false} SomeThreadMoves(f: Frame) returns (position: seq<nat>)
    requires !f.Returned?
    ensures StepAt(f, position) != f
    decreases f
  {
    if f.Joining? && f.kids != [] && !f.kids[0].Returned? {
      var rest := SomeThreadMoves(f.kids[0]);
      position := [0] + rest;
      assert position[1..] == rest;
      var kid' := StepAt(f.kids[0], rest);
      assert f.kids[0 := kid'][0] == kid' != f.kids[0];
    } else {
      position := [];
    }
  }

  /** The number of steps of a schedule that change anything. */
  function Moves(f: Frame, schedule: seq<seq<nat>>): nat
    decreases |schedule|
  {
    if schedule == [] then 0
    else (if StepAt(f, schedule[0]) != f then 1 else 0) + Moves(StepAt(f, schedule[0]), schedule[1..])
  }

  /** Every schedule makes at most `Work` moves. */
  lemma {:induction false} MovesBounded(f: Frame, schedule: seq<seq<nat>>)
    ensures Moves(f, schedule) + Work(Run(f, schedule)) <= Work(f)
    decreases |schedule|
  {
    if schedule != [] {
      MovesBounded(StepAt(f, schedule[0]), schedule[1..]);
      if StepAt(f, schedule[0]) != f {
        StepUsesWork(f, schedule[0]);
      }
    }
  }

  /** Every schedule ends: whenever no thread can move any more, the program has returned, and any state of any
  run can be continued to that point. */
  lemma {:induction false} Completes(f: Frame) returns (schedule: seq<seq<nat>>)
    ensures Run(f, schedule).Returned?
    decreases Work(f)
  {
    if f.Returned? {
      return [];
    }
    var position := SomeThreadMoves(f);
    StepUsesWork(f, position);
    var rest := Completes(StepAt(f, position));
    schedule := [position] + rest;
    assert schedule[1..] == rest;
  }
}
