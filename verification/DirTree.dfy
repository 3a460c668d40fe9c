/** Directory trees and what the three statistics programs count in them: IO/dir/statistic.c (sequential),
homework/statistic_file.c (fork and join) and homework/statistic_file_with_thread_pool.c (worker pool). This file
holds the tree, the counts, the line counter and the sequential program. Path buffers are unbounded here. */
module DirTree {
  import opened Counting

  /** What a directory entry leads to. `Unreadable` is a regular file that fopen refuses, `Locked` a directory that
  opendir refuses, `Dangling` a link for which stat fails. */
  datatype Node =
    | Regular(content: string)
    | Unreadable
    | Directory(items: seq<Item>)
    | Locked
    | Link(target: Node)
    | Dangling
    | Other

  datatype Item = Item(name: string, node: Node)

  datatype Counts = Counts(files: nat, dirs: nat, lines: nat)

  const ZERO := Counts(0, 0, 0)

  function Plus(a: Counts, b: Counts): Counts {
    Counts(a.files + b.files, a.dirs + b.dirs, a.lines + b.lines)
  }

  lemma PlusZero(a: Counts)
    ensures Plus(a, ZERO) == a == Plus(ZERO, a)
  {
  }

  lemma PlusAssoc(a: Counts, b: Counts, c: Counts)
    ensures Plus(a, Plus(b, c)) == Plus(Plus(a, b), c)
  {
  }

  /** One entry moves from the unread side to the counted side. */
  lemma PlusMove(local: Counts, here: Counts, below: Counts, rest: Counts, kids: Counts)
    ensures Plus(Plus(Plus(local, here), rest), Plus(kids, below)) ==
            Plus(Plus(local, Plus(Plus(here, below), rest)), kids)
  {
  }

  function FullPath(dir: string, name: string): string {
    dir + "/" + name
  }

  predicate Skipped(name: string) {
    name == "." || name == ".."
  }

  /** The suffix test of the sequential program; it reads the last two characters unguarded, and every path it
  builds has at least two. */
  predicate SourceSuffix(path: string) {
    |path| >= 2 && (path[|path| - 1] == 'c' || path[|path| - 1] == 'h') && path[|path| - 2] == '.'
  }

  /** The suffix test of the other two programs, which also ask for more than two characters. */
  predicate SourcePath(path: string) {
    |path| > 2 && path[|path| - 2] == '.' && (path[|path| - 1] == 'c' || path[|path| - 1] == 'h')
  }

  /** On the paths the programs build, the length test makes no difference. */
  lemma SuffixTestsAgree(dir: string, name: string)
    ensures SourceSuffix(FullPath(dir, name)) == SourcePath(FullPath(dir, name))
  {
    assert FullPath(dir, name)[|dir|] == '/';
  }

  // ----- lines of one file

  function Newlines(text: string): nat {
    if text == [] then 0 else Newlines(text[..|text| - 1]) + (if text[|text| - 1] == '\n' then 1 else 0)
  }

  /** code_counter: one more than the number of newlines. */
  function Lines(text: string): nat {
    Newlines(text) + 1
  }

  function IsNewline(text: string): nat -> bool {
    (i: nat) => i < |text| && text[i] == '\n'
  }

  lemma {:induction false} NewlinesCount(text: string, n: nat)
    requires n <= |text|
    ensures Newlines(text[..n]) == |Below(n, IsNewline(text))|
  {
    if n > 0 {
      assert text[..n][..n - 1] == text[..n - 1];
      NewlinesCount(text, n - 1);
      BelowNext(n - 1, IsNewline(text));
    }
  }

  /** A file has one line more than it has newline characters. */
  lemma LinesCount(text: string)
    ensures Lines(text) == 1 + |set i: nat | i < |text| && text[i] == '\n'|
  {
    NewlinesCount(text, |text|);
    assert text[..|text|] == text;
    assert Below(|text|, IsNewline(text)) == set i: nat | i < |text| && text[i] == '\n';
  }

  method CodeCounter(text: string) returns (count: nat)
    ensures count == Lines(text)
    ensures count == 1 + |set i: nat | i < |text| && text[i] == '\n'|
  {
    LinesCount(text);
    count := 0;
    for i := 0 to |text|
      invariant count == Newlines(text[..i])
    {
      assert text[..i + 1][..i] == text[..i];
      if text[i] == '\n' {
        count := count + 1;
      }
    }
    assert text[..|text|] == text;
    count := count + 1;
  }

  // ----- the counts of a tree, as the two concurrent programs define them (stat follows links)

  function CountNode(path: string, n: Node): Counts
    decreases n, 1
  {
    match n
    case Regular(text) => Counts(1, 0, if SourcePath(path) then Lines(text) else 0)
    case Unreadable => Counts(1, 0, 0)
    case Directory(_) => Plus(Counts(0, 1, 0), CountDir(path, n))
    case Locked => Counts(0, 1, 0)
    case Link(target) => CountNode(path, target)
    case Dangling => ZERO
    case Other => ZERO
  }

  /** What is counted inside what opendir, which follows links, opens: nothing if it refuses. */
  function CountDir(path: string, n: Node): Counts
    decreases n, 0
  {
    match n
    case Directory(items) => CountItems(path, items)
    case Link(target) => CountDir(path, target)
    case _ => ZERO
  }

  function CountItem(path: string, item: Item): Counts
    decreases item
  {
    if Skipped(item.name) then ZERO else CountNode(FullPath(path, item.name), item.node)
  }

  function CountItems(path: string, items: seq<Item>): Counts
    decreases items
  {
    if items == [] then ZERO else Plus(CountItem(path, items[0]), CountItems(path, items[1..]))
  }

  /** What stat reports on and opendir opens: the node at the end of a chain of links. */
  function Strip(n: Node): Node {
    if n.Link? then Strip(n.target) else n
  }

  lemma {:induction false} StripCounts(path: string, n: Node)
    ensures !Strip(n).Link? && CountNode(path, Strip(n)) == CountNode(path, n)
    ensures CountDir(path, Strip(n)) == CountDir(path, n)
  {
    if n.Link? { StripCounts(path, n.target); }
  }

  // ----- what the counts are

  /** The name ends in ".c" or ".h". */
  predicate SourceName(name: string) {
    |name| >= 2 && (name[|name| - 2..] == ".c" || name[|name| - 2..] == ".h")
  }

  lemma SourceSuffixOfName(dir: string, name: string)
    ensures SourcePath(FullPath(dir, name)) <==>
            |name| >= 2 && (name[|name| - 2..] == ".c" || name[|name| - 2..] == ".h")
  {
    var path := FullPath(dir, name);
    assert path[|dir|] == '/';
    if |name| >= 2 {
      var last := name[|name| - 2..];
      assert last == [path[|path| - 2], path[|path| - 1]];
    }
  }

  /** One entry, by its name and by what stat finds: only "." and ".." do not count; a file is one file, and its lines
  count if it can be read and its name ends in ".c" or ".h"; a directory is one directory and what is in it. */
  lemma {:induction false} ItemCounts(path: string, item: Item)
    ensures var c, n := CountItem(path, item), Strip(item.node);
            if item.name == "." || item.name == ".." then c.files == c.dirs == c.lines == 0
            else match n
                 case Regular(text) =>
                   c.files == 1 && c.dirs == 0 && c.lines == if SourceName(item.name) then Lines(text) else 0
                 case Unreadable => c.files == 1 && c.dirs == 0 && c.lines == 0
                 case Directory(_) =>
                   var inside := CountDir(path + "/" + item.name, item.node);
                   c.files == inside.files && c.dirs == 1 + inside.dirs && c.lines == inside.lines
                 case Locked => c.files == 0 && c.dirs == 1 && c.lines == 0
                 case _ => c.files == c.dirs == c.lines == 0
  {
    StripCounts(FullPath(path, item.name), item.node);
    SourceSuffixOfName(path, item.name);
    assert FullPath(path, item.name) == path + "/" + item.name;
  }

  lemma {:induction false} CountItemsSnoc(path: string, items: seq<Item>, item: Item)
    ensures var c, d, e := CountItems(path, items + [item]), CountItems(path, items), CountItem(path, item);
            c.files == d.files + e.files && c.dirs == d.dirs + e.dirs && c.lines == d.lines + e.lines
  {
    var more := items + [item];
    if items == [] {
      assert more[0] == item && more[1..] == [];
    } else {
      assert more[0] == items[0] && more[1..] == items[1..] + [item];
      CountItemsSnoc(path, items[1..], item);
    }
  }

  /** A file: every name but "." and "..", if stat finds a file. */
  predicate FileEntry(item: Item) {
    item.name != "." && item.name != ".." && (Strip(item.node).Regular? || Strip(item.node).Unreadable?)
  }

  predicate DirectoryEntry(item: Item) {
    item.name != "." && item.name != ".." && (Strip(item.node).Directory? || Strip(item.node).Locked?)
  }

  function IsFile(items: seq<Item>): nat -> bool {
    (i: nat) => i < |items| && FileEntry(items[i])
  }

  function IsDirectory(items: seq<Item>): nat -> bool {
    (i: nat) => i < |items| && DirectoryEntry(items[i])
  }

  /** What subdirectory `i` holds; nothing if entry `i` is none. */
  function Inside(path: string, items: seq<Item>, i: nat): Counts {
    if IsDirectory(items)(i) then CountDir(path + "/" + items[i].name, items[i].node) else ZERO
  }

  /** The lines of file `i`, if it can be read and its name ends in ".c" or ".h". */
  function OwnLines(items: seq<Item>, i: nat): nat {
    if IsFile(items)(i) && Strip(items[i].node).Regular? && SourceName(items[i].name)
    then 1 + |set j: nat | j < |Strip(items[i].node).content| && Strip(items[i].node).content[j] == '\n'|
    else 0
  }

  function FilesInside(path: string, items: seq<Item>): nat -> nat {
    (i: nat) => Inside(path, items, i).files
  }

  function DirsInside(path: string, items: seq<Item>): nat -> nat {
    (i: nat) => Inside(path, items, i).dirs
  }

  function LinesInside(path: string, items: seq<Item>): nat -> nat {
    (i: nat) => Inside(path, items, i).lines
  }

  function LinesOwn(items: seq<Item>): nat -> nat {
    (i: nat) => OwnLines(items, i)
  }

  lemma {:induction false} OneItemMore(path: string, items: seq<Item>, n: nat)
    requires n < |items|
    ensures var c, d, inside := CountItems(path, items[..n + 1]), CountItems(path, items[..n]), Inside(path, items, n);
            && c.files == d.files + inside.files + (if IsFile(items)(n) then 1 else 0)
            && c.dirs == d.dirs + inside.dirs + (if IsDirectory(items)(n) then 1 else 0)
            && c.lines == d.lines + inside.lines + OwnLines(items, n)
  {
    assert items[..n + 1] == items[..n] + [items[n]];
    CountItemsSnoc(path, items[..n], items[n]);
    ItemCounts(path, items[n]);
    var node := Strip(items[n].node);
    if node.Regular? { LinesCount(node.content); }
    StripCounts(path + "/" + items[n].name, items[n].node);
  }

  lemma {:induction false} ItemsCount(path: string, items: seq<Item>, n: nat)
    requires n <= |items|
    ensures CountItems(path, items[..n]).files == |Below(n, IsFile(items))| + Sum(n, FilesInside(path, items))
    ensures CountItems(path, items[..n]).dirs == |Below(n, IsDirectory(items))| + Sum(n, DirsInside(path, items))
    ensures CountItems(path, items[..n]).lines == Sum(n, LinesOwn(items)) + Sum(n, LinesInside(path, items))
  {
    if n > 0 {
      ItemsCount(path, items, n - 1);
      BelowNext(n - 1, IsFile(items));
      BelowNext(n - 1, IsDirectory(items));
      OneItemMore(path, items, n - 1);
    }
  }

  /** What the concurrent programs count in a directory, entry by entry: every name but "." and ".." whose node is a
  file is a file; every one whose node is a directory is a directory; the lines are those of the readable files with a
  source name; and each subdirectory adds what is in it. */
  lemma DirectoryCounts(path: string, items: seq<Item>)
    ensures CountItems(path, items).files == |Below(|items|, IsFile(items))| + Sum(|items|, FilesInside(path, items))
    ensures CountItems(path, items).dirs == |Below(|items|, IsDirectory(items))| + Sum(|items|, DirsInside(path, items))
    ensures CountItems(path, items).lines == Sum(|items|, LinesOwn(items)) + Sum(|items|, LinesInside(path, items))
  {
    assert items[..|items|] == items;
    ItemsCount(path, items, |items|);
  }

  // ----- the sequential program

  /** What the sequential program counts for a node: it trusts the entry type, so it never follows a link. */
  function SeqNode(path: string, n: Node): Counts
    decreases n, 1
  {
    match n
    case Regular(text) => Counts(1, 0, if SourcePath(path) then Lines(text) else 0)
    case Unreadable => Counts(1, 0, 0)
    case Directory(_) => var inside := SeqDir(path, n); inside.(dirs := inside.dirs + 1)
    case Locked => Counts(0, 1, 0)
    case _ => ZERO
  }

  function SeqDir(path: string, n: Node): Counts
    decreases n, 0
  {
    match n
    case Directory(items) => SeqItems(path, items)
    case _ => ZERO
  }

  function SeqItem(path: string, item: Item): Counts
    decreases item
  {
    if Skipped(item.name) then ZERO else SeqNode(FullPath(path, item.name), item.node)
  }

  function SeqItems(path: string, items: seq<Item>): Counts
    decreases items
  {
    if items == [] then ZERO
    else
      var here, rest := SeqItem(path, items[0]), SeqItems(path, items[1..]);
      Counts(here.files + rest.files, here.dirs + rest.dirs, here.lines + rest.lines)
  }

  /** No source file that the sequential program meets makes fopen fail; it exits on the first that does. */
  predicate Openable(path: string, n: Node)
    decreases n
  {
    match n
    case Unreadable => !SourcePath(path)
    case Directory(items) => OpenableItems(path, items)
    case _ => true
  }

  predicate OpenableItems(path: string, items: seq<Item>)
    decreases items
  {
    items == [] ||
    (&& (Skipped(items[0].name) || Openable(FullPath(path, items[0].name), items[0].node))
     && OpenableItems(path, items[1..]))
  }

  /** An entry that makes the sequential program call show_dir again. */
  predicate Subdirectory(item: Item) {
    !Skipped(item.name) && (item.node.Directory? || item.node.Locked?)
  }

  predicate NoSubdirectory(items: seq<Item>) {
    items == [] || (!Subdirectory(items[0]) && NoSubdirectory(items[1..]))
  }

  /** The last subdirectory in reading order cannot be opened. */
  predicate LockedLast(items: seq<Item>) {
    items != [] &&
    (LockedLast(items[1..]) || (Subdirectory(items[0]) && items[0].node.Locked? && NoSubdirectory(items[1..])))
  }

  ghost predicate LastAt(items: seq<Item>, i: int) {
    0 <= i < |items| && Subdirectory(items[i]) && forall j :: i < j < |items| ==> !Subdirectory(items[j])
  }

  /** The same by position: some entry is the last subdirectory, and it is locked. */
  lemma {:induction false} LockedLastPosition(items: seq<Item>)
    ensures NoSubdirectory(items) <==> forall i :: 0 <= i < |items| ==> !Subdirectory(items[i])
    ensures LockedLast(items) <==> exists i :: LastAt(items, i) && items[i].node.Locked?
    ensures forall i :: 0 <= i < |items| ==>
      (Subdirectory(items[i]) <==>
       items[i].name != "." && items[i].name != ".." && (items[i].node.Directory? || items[i].node.Locked?))
  {
    if items != [] {
      var rest := items[1..];
      LockedLastPosition(rest);
      assert forall i :: 0 <= i < |rest| ==> rest[i] == items[i + 1];
      assert forall i :: 0 <= i < |rest| ==> (LastAt(rest, i) <==> LastAt(items, i + 1));
      assert LastAt(items, 0) <==> Subdirectory(items[0]) && NoSubdirectory(rest);
    }
  }

  /** In no directory that the sequential program reads is the last subdirectory one that cannot be opened. */
  predicate ClosedOnce(n: Node)
    decreases n
  {
    n.Directory? ==> !LockedLast(n.items) && ClosedOnceItems(n.items)
  }

  predicate ClosedOnceItems(items: seq<Item>)
    decreases items
  {
    items == [] || ((Skipped(items[0].name) || ClosedOnce(items[0].node)) && ClosedOnceItems(items[1..]))
  }

  /** How a call of show_dir ends: it returns, the process exits because a source file cannot be opened, or a
  directory stream has been closed twice, after which nothing is promised. */
  datatype Ending = Returns | Exits | ClosesTwice

  /** The three global counters of IO/dir/statistic.c and the recursion that updates them. `stale` says that errno is
  not 0: show_dir clears it once, when it has opened its directory, and readdir does not touch it at the end. */
  class Statistic {
    var counts: Counts
    var stale: bool

    constructor ()
      ensures counts == ZERO
    {
      counts, stale := ZERO, false;
    }

    /** show_dir, for the node that opendir finds at the path. It returns exactly when every source file it meets opens
    and no directory is taken for broken because of the errno of a refused opendir. */
    method ShowDir(path: string, n: Node) returns (end: Ending)
      modifies this
      ensures end == Returns <==> (n.Directory? ==> Openable(path, n) && ClosedOnce(n))
      ensures end == Exits ==> !Openable(path, n)
      ensures end == ClosesTwice ==> !ClosedOnce(n)
      ensures end == Returns ==>
        && counts.files == old(counts.files) + SeqDir(path, n).files
        && counts.dirs == old(counts.dirs) + SeqDir(path, n).dirs
        && counts.lines == old(counts.lines) + SeqDir(path, n).lines
        && stale == !n.Directory?
      decreases n, 0
    {
      if !n.Directory? {
        stale := true;
        return Returns;
      }
      var items := n.items;
      stale := false;
      var i := 0;
      while i < |items|
        invariant 0 <= i <= |items|
        invariant OpenableItems(path, items[i..]) == Openable(path, n)
        invariant ClosedOnceItems(items[i..]) == ClosedOnceItems(items)
        invariant LockedLast(items) == (LockedLast(items[i..]) || (stale && NoSubdirectory(items[i..])))
        invariant counts.files + SeqItems(path, items[i..]).files == old(counts.files) + SeqItems(path, items).files
        invariant counts.dirs + SeqItems(path, items[i..]).dirs == old(counts.dirs) + SeqItems(path, items).dirs
        invariant counts.lines + SeqItems(path, items[i..]).lines == old(counts.lines) + SeqItems(path, items).lines
      {
        var item := items[i];
        assert items[i..][1..] == items[i + 1..] && items[i..][0] == item;
        if !Skipped(item.name) {
          end := ShowEntry(path, item.name, item.node);
          if end != Returns {
            return;
          }
        }
        i := i + 1;
      }
      end := if stale then ClosesTwice else Returns;
    }

    /** The switch on the entry type, for the entry `name` of the directory `dir`. */
    method ShowEntry(dir: string, name: string, n: Node) returns (end: Ending)
      modifies this
      ensures end == Returns <==> Openable(FullPath(dir, name), n) && ClosedOnce(n)
      ensures end == Exits ==> !Openable(FullPath(dir, name), n)
      ensures end == ClosesTwice ==> !ClosedOnce(n)
      ensures end == Returns ==>
        && counts.files == old(counts.files) + SeqNode(FullPath(dir, name), n).files
        && counts.dirs == old(counts.dirs) + SeqNode(FullPath(dir, name), n).dirs
        && counts.lines == old(counts.lines) + SeqNode(FullPath(dir, name), n).lines
      ensures end == Returns ==> stale == if n.Directory? then false else n.Locked? || old(stale)
      decreases n, 1
    {
      var path := FullPath(dir, name);
      SuffixTestsAgree(dir, name);
      end := Returns;
      match n
      case Regular(text) =>
        counts := counts.(files := counts.files + 1);
        if SourceSuffix(path) {
          var lines := CodeCounter(text);
          counts := counts.(lines := counts.lines + lines);
        }
      case Unreadable =>
        counts := counts.(files := counts.files + 1);
        end := if SourceSuffix(path) then Exits else Returns;
      case Directory(_) =>
        counts := counts.(dirs := counts.dirs + 1);
        end := ShowDir(path, n);
      case Locked =>
        counts := counts.(dirs := counts.dirs + 1);
        end := ShowDir(path, n);
      case Link(_) =>
      case Dangling =>
      case Other =>
    }
  }

  // ----- when the programs agree

  /** A link that stat resolves to a file or a directory. */
  predicate LiveLink(n: Node) {
    n.Link? && Resolves(n.target)
  }

  predicate Resolves(n: Node) {
    match n
    case Regular(_) => true
    case Unreadable => true
    case Directory(_) => true
    case Locked => true
    case Link(target) => Resolves(target)
    case Dangling => false
    case Other => false
  }

  /** No link reached without following a link is live. */
  predicate NoLiveLinks(n: Node) {
    match n
    case Link(_) => !LiveLink(n)
    case Directory(items) => NoLiveItems(items)
    case _ => true
  }

  predicate NoLiveItems(items: seq<Item>) {
    items == [] || ((Skipped(items[0].name) || NoLiveLinks(items[0].node)) && NoLiveItems(items[1..]))
  }

  /** One entry keeps the sequential program from stopping early: it is no source file that cannot be opened, and in a
  directory the same holds of all entries. */
  predicate OpensFully(path: string, item: Item) {
    && (item.node.Unreadable? ==> !SourceName(item.name))
    && (item.node.Directory? ==> OpenableItems(path + "/" + item.name, item.node.items))
  }

  /** When the sequential program stops early, entry by entry: only "." and ".." do not matter. */
  lemma {:induction false} OpenableEntries(path: string, items: seq<Item>)
    ensures OpenableItems(path, items) <==>
            forall i :: 0 <= i < |items| ==> items[i].name == "." || items[i].name == ".." || OpensFully(path, items[i])
  {
    if items != [] {
      var item, rest := items[0], items[1..];
      OpenableEntries(path, rest);
      SourceSuffixOfName(path, item.name);
      assert FullPath(path, item.name) == path + "/" + item.name;
      assert items == [item] + rest;
    }
  }

  /** When it closes a stream twice, entry by entry. */
  lemma {:induction false} ClosedOnceEntries(items: seq<Item>)
    ensures ClosedOnceItems(items) <==>
            forall i :: 0 <= i < |items| && items[i].name != "." && items[i].name != ".." ==>
              (items[i].node.Directory? ==>
                 !LockedLast(items[i].node.items) && ClosedOnceItems(items[i].node.items))
  {
    if items != [] {
      ClosedOnceEntries(items[1..]);
      assert items == [items[0]] + items[1..];
    }
  }

  /** When it misses something that the other two count, entry by entry. */
  lemma {:induction false} NoLiveEntries(items: seq<Item>)
    ensures NoLiveItems(items) <==>
            forall i :: 0 <= i < |items| && items[i].name != "." && items[i].name != ".." ==>
              && (items[i].node.Link? ==> Strip(items[i].node).Dangling? || Strip(items[i].node).Other?)
              && (items[i].node.Directory? ==> NoLiveItems(items[i].node.items))
  {
    if items != [] {
      NoLiveEntries(items[1..]);
      StripResolves(items[0].node);
      assert items == [items[0]] + items[1..];
    }
  }

  lemma {:induction false} StripResolves(n: Node)
    ensures Resolves(n) <==> !Strip(n).Dangling? && !Strip(n).Other?
  {
    if n.Link? { StripResolves(n.target); }
  }

  predicate AtMost(a: Counts, b: Counts) {
    a.files <= b.files && a.dirs <= b.dirs && a.lines <= b.lines
  }

  lemma {:induction false} ResolvedCounts(path: string, n: Node)
    ensures Resolves(n) <==> CountNode(path, n).files + CountNode(path, n).dirs > 0
    ensures !Resolves(n) ==> CountNode(path, n) == ZERO
  {
    if n.Link? {
      ResolvedCounts(path, n.target);
    }
  }

  /** The concurrent programs count at least what the sequential one does, and exactly that when no link is live. */
  lemma {:induction false} LinksOnlyAdd(path: string, n: Node)
    ensures AtMost(SeqNode(path, n), CountNode(path, n)) && AtMost(SeqDir(path, n), CountDir(path, n))
    ensures NoLiveLinks(n) <==> SeqNode(path, n) == CountNode(path, n)
    ensures n.Directory? ==> (NoLiveLinks(n) <==> SeqDir(path, n) == CountDir(path, n))
    decreases n, 1
  {
    if n.Directory? {
      LinksOnlyAddItems(path, n.items);
    } else if n.Link? {
      ResolvedCounts(path, n.target);
    }
  }

  /** Sums of larger parts are larger, and equal only if the parts are. */
  lemma SumsAtMost(a: Counts, b: Counts, a': Counts, b': Counts)
    requires AtMost(a, a') && AtMost(b, b')
    ensures AtMost(Plus(a, b), Plus(a', b'))
    ensures Plus(a, b) == Plus(a', b') ==> a == a' && b == b'
  {
    if Plus(a, b) == Plus(a', b') {
      assert a.files + b.files == a'.files + b'.files;
      assert a.dirs + b.dirs == a'.dirs + b'.dirs;
      assert a.lines + b.lines == a'.lines + b'.lines;
      SameFields(a, a');
      SameFields(b, b');
    }
  }

  lemma SameFields(a: Counts, b: Counts)
    requires a.files == b.files && a.dirs == b.dirs && a.lines == b.lines
    ensures a == b
  {
  }

  lemma {:induction false} LinksOnlyAddItems(path: string, items: seq<Item>)
    ensures AtMost(SeqItems(path, items), CountItems(path, items))
    ensures NoLiveItems(items) <==> SeqItems(path, items) == CountItems(path, items)
    decreases items, 0
  {
    if items != [] {
      var rest := items[1..];
      LinksOnlyAdd(FullPath(path, items[0].name), items[0].node);
      LinksOnlyAddItems(path, rest);
      LinksOnlyAddFirst(path, items);
    }
  }

  lemma {:induction false} LinksOnlyAddFirst(path: string, items: seq<Item>)
    requires items != []
    requires AtMost(SeqItem(path, items[0]), CountItem(path, items[0]))
    requires AtMost(SeqItems(path, items[1..]), CountItems(path, items[1..]))
    ensures AtMost(SeqItems(path, items), CountItems(path, items))
    ensures SeqItems(path, items) == CountItems(path, items) <==>
            && SeqItem(path, items[0]) == CountItem(path, items[0])
            && SeqItems(path, items[1..]) == CountItems(path, items[1..])
  {
    var a, b := SeqItem(path, items[0]), SeqItems(path, items[1..]);
    var a', b' := CountItem(path, items[0]), CountItems(path, items[1..]);
    assert SeqItems(path, items) == Plus(a, b) && CountItems(path, items) == Plus(a', b');
    SumsAtMost(a, b, a', b');
  }

  /** What a whole sequential run comes to. */
  datatype Outcome = Printed(counts: Counts) | ExitedEarly | StreamClosedTwice

  /** The counters are those of the other two programs. */
  ghost predicate Agrees(counts: Counts, path: string, root: Node) {
    counts == CountDir(path, root)
  }

  /** The sequential program gets through the directory: every source file opens and every stream is closed once. */
  ghost predicate RunsThrough(path: string, dir: Node) {
    dir.Directory? ==> Openable(path, dir) && ClosedOnce(dir)
  }

  /** What it printed agrees with the other two programs exactly when no live link is met. */
  ghost predicate AgreesIff(counts: Counts, path: string, root: Node) {
    Agrees(counts, path, root) <==> !Strip(root).Directory? || NoLiveLinks(Strip(root))
  }

  lemma {:induction false} SequentialCounts(counts: Counts, path: string, root: Node)
    requires counts == SeqDir(path, Strip(root))
    ensures AgreesIff(counts, path, root)
  {
    StripCounts(path, root);
    LinksOnlyAdd(path, Strip(root));
  }

  /** The recursion from the root on, with all counters at zero. */
  method ShowRoot(path: string, dir: Node) returns (end: Ending, counts: Counts)
    ensures end == Returns <==> RunsThrough(path, dir)
    ensures end == Exits ==> !Openable(path, dir)
    ensures end == ClosesTwice ==> !ClosedOnce(dir)
    ensures end == Returns ==> counts == SeqDir(path, dir)
  {
    var statistic := new Statistic();
    end := statistic.ShowDir(path, dir);
    counts := statistic.counts;
    if end == Returns { SameFields(counts, SeqDir(path, dir)); }
  }

  /** main, for the node at argv[1], which opendir follows if it is a link. It prints exactly when every source file
  opens and every stream is closed once; then it prints the totals of the other two programs exactly when no live
  link is met. */
  method RunSequential(path: string, root: Node) returns (r: Outcome)
    ensures r.Printed? <==> RunsThrough(path, Strip(root))
    ensures r == StreamClosedTwice ==> !ClosedOnce(Strip(root))
    ensures r == ExitedEarly ==> !Openable(path, Strip(root))
    ensures r.Printed? ==> AgreesIff(r.counts, path, root)
  {
    var end, counts := ShowRoot(path, Strip(root));
    match end
    case Returns =>
      r := Printed(counts);
      SequentialCounts(counts, path, root);
    case Exits => r := ExitedEarly;
    case ClosesTwice => r := StreamClosedTwice;
  }

  /** The smallest tree that is closed twice: its only subdirectory cannot be opened. */
  const LOCKED_ENTRY := [Item("x", Locked)]

  lemma LockedSubdirectory(path: string)
    ensures Openable(path, Directory(LOCKED_ENTRY)) && !ClosedOnce(Directory(LOCKED_ENTRY))
  {
    assert LOCKED_ENTRY[1..] == [];
  }

  method RunClosedTwice(path: string) returns (r: Outcome)
    ensures r == StreamClosedTwice
  {
    LockedSubdirectory(path);
    r := RunSequential(path, Directory(LOCKED_ENTRY));
  }
}
