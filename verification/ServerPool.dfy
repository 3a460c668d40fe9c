/** The pre-forked server pool of IPC/socket/stream/pool_dynamic/server.c. The parent owns the process ids and the two
counters; every child flips its own state in shared memory at any moment. Within one operation of the parent each state
is read once, so that all flips up to that read can be put before the operation (`Children`); only scan_pool may read a
state twice, and what a child does in between is a parameter of it. The table size and the band of spare servers are
parameters. */
module ServerPool {
  import opened Arith
  import opened Counting

  /** The pid of a free slot. */
  const FREE: int := -1

  datatype Activity = Idle | Busy

  function Other(a: Activity): Activity {
    if a == Idle then Busy else Idle
  }

  function Occupied(pids: seq<int>): nat {
    if pids == [] then 0 else (if pids[0] != FREE then 1 else 0) + Occupied(pids[1..])
  }

  /** The occupied slots that are idle. */
  function IdleSlots(pids: seq<int>, states: seq<Activity>): nat
    requires |pids| == |states|
  {
    if pids == [] then 0
    else (if pids[0] != FREE && states[0] == Idle then 1 else 0) + IdleSlots(pids[1..], states[1..])
  }

  lemma {:induction false} OccupiedUpdate(pids: seq<int>, i: nat, pid: int)
    requires i < |pids|
    ensures Occupied(pids[i := pid]) ==
            Occupied(pids) - (if pids[i] != FREE then 1 else 0) + (if pid != FREE then 1 else 0)
  {
    if i > 0 {
      assert pids[i := pid][1..] == pids[1..][i - 1 := pid];
      OccupiedUpdate(pids[1..], i - 1, pid);
    } else {
      assert pids[i := pid][1..] == pids[1..];
    }
  }

  lemma {:induction false} IdleSlotsUpdate(pids: seq<int>, states: seq<Activity>, i: nat, pid: int, a: Activity)
    requires |pids| == |states| && i < |pids|
    ensures IdleSlots(pids[i := pid], states[i := a]) ==
            IdleSlots(pids, states) - (if pids[i] != FREE && states[i] == Idle then 1 else 0)
            + (if pid != FREE && a == Idle then 1 else 0)
  {
    if i > 0 {
      assert pids[i := pid][1..] == pids[1..][i - 1 := pid] && states[i := a][1..] == states[1..][i - 1 := a];
      IdleSlotsUpdate(pids[1..], states[1..], i - 1, pid, a);
    } else {
      assert pids[i := pid][1..] == pids[1..] && states[i := a][1..] == states[1..];
    }
  }

  lemma {:induction false} OccupiedFull(pids: seq<int>)
    ensures Occupied(pids) <= |pids|
    ensures Occupied(pids) == |pids| <==> FREE !in pids
  {
    if pids != [] {
      OccupiedFull(pids[1..]);
      assert pids == [pids[0]] + pids[1..];
    }
  }

  lemma {:induction false} NoneIdle(pids: seq<int>, states: seq<Activity>)
    requires |pids| == |states|
    requires forall i :: 0 <= i < |pids| ==> pids[i] == FREE || states[i] == Busy
    ensures IdleSlots(pids, states) == 0
  {
    if pids != [] {
      assert forall i :: 0 <= i < |pids| - 1 ==> pids[1..][i] == pids[i + 1] && states[1..][i] == states[i + 1];
      NoneIdle(pids[1..], states[1..]);
    }
  }

  /** Slot `i` holds a child in this state. */
  function ChildIn(pids: seq<int>, states: seq<Activity>, a: Activity): nat -> bool {
    (i: nat) => i < |pids| && i < |states| && pids[i] != FREE && states[i] == a
  }

  lemma {:induction false} SlotsSnoc(pids: seq<int>, states: seq<Activity>, pid: int, a: Activity)
    requires |pids| == |states|
    ensures IdleSlots(pids + [pid], states + [a]) ==
            IdleSlots(pids, states) + (if pid != FREE && a == Idle then 1 else 0)
    ensures Occupied(pids + [pid]) == Occupied(pids) + (if pid != FREE then 1 else 0)
  {
    if pids == [] {
      assert (pids + [pid])[1..] == [] && (states + [a])[1..] == [];
    } else {
      assert (pids + [pid])[1..] == pids[1..] + [pid] && (states + [a])[1..] == states[1..] + [a];
      SlotsSnoc(pids[1..], states[1..], pid, a);
    }
  }

  lemma {:induction false} SlotsCount(pids: seq<int>, states: seq<Activity>, n: nat)
    requires |pids| == |states| && n <= |pids|
    ensures IdleSlots(pids[..n], states[..n]) == |Below(n, ChildIn(pids, states, Idle))|
    ensures Occupied(pids[..n]) ==
            |Below(n, ChildIn(pids, states, Idle))| + |Below(n, ChildIn(pids, states, Busy))|
  {
    if n > 0 {
      SlotsCount(pids, states, n - 1);
      assert pids[..n] == pids[..n - 1] + [pids[n - 1]] && states[..n] == states[..n - 1] + [states[n - 1]];
      SlotsSnoc(pids[..n - 1], states[..n - 1], pids[n - 1], states[n - 1]);
      BelowNext(n - 1, ChildIn(pids, states, Idle));
      BelowNext(n - 1, ChildIn(pids, states, Busy));
    }
  }

  /** The recursive counts are numbers of slots. */
  lemma SlotSets(pids: seq<int>, states: seq<Activity>)
    requires |pids| == |states|
    ensures IdleSlots(pids, states) == |set i: nat | i < |pids| && pids[i] != FREE && states[i] == Idle|
    ensures Occupied(pids) - IdleSlots(pids, states) ==
            |set i: nat | i < |pids| && pids[i] != FREE && states[i] == Busy|
  {
    SlotsCount(pids, states, |pids|);
    assert pids[..|pids|] == pids && states[..|states|] == states;
    assert Below(|pids|, ChildIn(pids, states, Idle)) ==
           set i: nat | i < |pids| && pids[i] != FREE && states[i] == Idle;
    assert Below(|pids|, ChildIn(pids, states, Busy)) ==
           set i: nat | i < |pids| && pids[i] != FREE && states[i] == Busy;
  }

  /** The pids after dead children have been cleared. */
  function Reaped(pids: seq<int>, dead: seq<bool>): (r: seq<int>)
    requires |pids| == |dead|
    ensures |r| == |pids|
  {
    seq(|pids|, i requires 0 <= i < |pids| => if dead[i] then FREE else pids[i])
  }

  /** The slots whose child is alive and in this state. */
  function AliveIn(pids: seq<int>, dead: seq<bool>, states: seq<Activity>, a: Activity): set<nat>
    requires |pids| == |dead| == |states|
  {
    set i: nat | i < |pids| && pids[i] != FREE && !dead[i] && states[i] == a
  }

  lemma AliveCounts(pids: seq<int>, dead: seq<bool>, states: seq<Activity>)
    requires |pids| == |dead| == |states|
    ensures IdleSlots(Reaped(pids, dead), states) == |AliveIn(pids, dead, states, Idle)|
    ensures Occupied(Reaped(pids, dead)) - IdleSlots(Reaped(pids, dead), states) == |AliveIn(pids, dead, states, Busy)|
  {
    var alive := Reaped(pids, dead);
    SlotSets(alive, states);
    assert AliveIn(pids, dead, states, Idle) == set i: nat | i < |alive| && alive[i] != FREE && states[i] == Idle;
    assert AliveIn(pids, dead, states, Busy) == set i: nat | i < |alive| && alive[i] != FREE && states[i] == Busy;
  }

  /** The states after some children have changed theirs. */
  function Flipped(states: seq<Activity>, flips: seq<bool>): (r: seq<Activity>)
    requires |states| == |flips|
    ensures |r| == |states|
  {
    seq(|states|, i requires 0 <= i < |states| => if flips[i] then Other(states[i]) else states[i])
  }

  /** The moving bound: a pass over a gap of `d` makes half of it, rounded up, corrections. */
  function Half(d: nat): nat {
    (d + 1) / 2
  }

  /** The spare servers after one pass over a table of `cap` slots while no child changes state. */
  function Pass(idle: int, busy: int, cap: nat, minSpare: nat, maxSpare: nat): int {
    if idle > maxSpare then idle - Half(idle - maxSpare)
    else if idle < minSpare then idle + Min(Half(minSpare - idle), cap - idle - busy)
    else idle
  }

  /** The slot that del_1_server picks. */
  predicate FirstIdle(pids: seq<int>, states: seq<Activity>, i: int)
    requires |pids| == |states|
  {
    && 0 <= i < |pids| && pids[i] != FREE && states[i] == Idle
    && forall k :: 0 <= k < i ==> pids[k] == FREE || states[k] == Busy
  }

  /** What happens outside the parent in one round: children die or flip before the scan (`dead`, `before`), flip
  between two reads of the scan (`again`) or before the k-th correction (`during`); fork returns pids. */
  datatype Round = Round(dead: seq<bool>, before: seq<bool>, again: seq<bool>, during: nat -> seq<bool>,
                         forks: nat -> int)

  ghost predicate Fitting(r: Round, size: nat) {
    && |r.dead| == |r.before| == |r.again| == size
    && forall k: nat :: |r.during(k)| == size && r.forks(k) > 0
  }

  /** Nobody changes its state. */
  ghost predicate Calm(r: Round) {
    true !in r.before && true !in r.again && forall k: nat :: true !in r.during(k)
  }

  /** Nobody dies either. */
  ghost predicate Quiet(r: Round) {
    Calm(r) && true !in r.dead
  }

  class Pool {
    const pids: array<int>
    const states: array<Activity>
    var idleCount: int
    var busyCount: int

    /** The two counters together count the occupied slots. */
    ghost predicate Valid()
      reads this, pids
    {
      && pids.Length == states.Length
      && 0 <= idleCount && 0 <= busyCount && idleCount + busyCount == Occupied(pids[..])
    }

    /** The counters are exact: every child is counted as what it is. */
    ghost predicate Exact()
      requires Valid()
      reads this, pids, states
    {
      idleCount == IdleSlots(pids[..], states[..])
    }

    constructor (size: nat)
      ensures Valid() && pids.Length == size && fresh(pids) && fresh(states) && idleCount == 0 && busyCount == 0
    {
      pids := new int[size](_ => FREE);
      states := new Activity[size](_ => Idle);
      idleCount, busyCount := 0, 0;
      new;
      AllFree(pids[..]);
    }

    /** The children at work. */
    method Children(flips: seq<bool>)
      requires Valid() && |flips| == states.Length
      modifies states
      ensures states[..] == Flipped(old(states[..]), flips)
      ensures forall i :: 0 <= i < states.Length ==> (states[i] == old(states[i]) <==> !flips[i])
      ensures true !in flips ==> states[..] == old(states[..])
    {
      for i := 0 to states.Length
        invariant forall k :: 0 <= k < i ==> states[k] == if flips[k] then Other(old(states[k])) else old(states[k])
        invariant forall k :: i <= k < states.Length ==> states[k] == old(states[k])
      {
        if flips[i] {
          states[i] := Other(states[i]);
        }
      }
    }

    /** scan_pool; `again` says which children change their state between the two reads. It aborts exactly when a living
    child is busy at the first read and idle at the second; otherwise the counters match the table exactly. */
    method ScanPool(dead: seq<bool>, again: seq<bool>) returns (aborted: bool)
      requires Valid() && |dead| == |again| == pids.Length
      modifies this, pids
      ensures aborted <==>
        exists i :: 0 <= i < pids.Length && old(pids[..])[i] != FREE && !dead[i] && states[i] == Busy && again[i]
      ensures !aborted ==> Valid() && Exact() && pids[..] == Reaped(old(pids[..]), dead)
      ensures !aborted ==> forall i :: 0 <= i < pids.Length ==> pids[i] == if dead[i] then FREE else old(pids[i])
      ensures !aborted ==> idleCount == |AliveIn(old(pids[..]), dead, states[..], Idle)|
      ensures !aborted ==> busyCount == |AliveIn(old(pids[..]), dead, states[..], Busy)|
    {
      ghost var was := pids[..];
      ghost var after, now := Reaped(was, dead), states[..];
      var idle, busy := 0, 0;
      for i := 0 to pids.Length
        invariant idle >= 0 && busy >= 0
        invariant pids[..i] == after[..i] && pids[i..] == was[i..]
        invariant idle + IdleSlots(after[i..], now[i..]) == IdleSlots(after, now)
        invariant idle + busy + Occupied(after[i..]) == Occupied(after)
        invariant forall k :: 0 <= k < i && was[k] != FREE && !dead[k] ==> !(now[k] == Busy && again[k])
      {
        assert after[i..][1..] == after[i + 1..] && now[i..][1..] == now[i + 1..];
        assert was[i..][1..] == was[i + 1..] && pids[i..][1..] == pids[i + 1..];
        assert after[i..][0] == after[i] && now[i..][0] == now[i] && pids[i] == was[i];
        if pids[i] == FREE {
        } else if dead[i] {
          pids[i] := FREE;
        } else if states[i] == Idle {
          idle := idle + 1;
        } else {
          var second := if again[i] then Other(states[i]) else states[i];
          if second == Idle {
            assert now[i] == Busy && again[i];
            return true;
          }
          busy := busy + 1;
        }
        assert pids[..i + 1] == pids[..i] + [pids[i]] && after[..i + 1] == after[..i] + [after[i]];
      }
      assert pids[..pids.Length] == pids[..] && after[..|after|] == after;
      assert after[|after|..] == [] && now[|now|..] == [];
      idleCount := idle;
      busyCount := busy;
      aborted := false;
      AliveCounts(was, dead, now);
    }

    /** add_1_server; `child` is the pid that fork returns. When the capacity check passes, the slot search ends inside
    the table; the child starts idle. */
    method AddServer(child: int) returns (ok: bool)
      requires Valid() && child > 0
      modifies this`idleCount, pids, states
      ensures Valid() && (old(Exact()) ==> Exact())
      ensures ok <==> old(idleCount) + busyCount < pids.Length
      ensures !ok ==> idleCount == old(idleCount) && pids[..] == old(pids[..]) && states[..] == old(states[..])
      ensures ok ==> idleCount == old(idleCount) + 1
      ensures ok ==> exists slot :: 0 <= slot < pids.Length && old(pids[..])[slot] == FREE
                                    && FREE !in old(pids[..])[..slot] && pids[..] == old(pids[..])[slot := child]
                                    && states[..] == old(states[..])[slot := Idle]
    {
      OccupiedFull(pids[..]);
      if idleCount + busyCount >= pids.Length {
        return false;
      }
      var slot := 0;
      while slot < pids.Length && pids[slot] != FREE
        invariant 0 <= slot <= pids.Length && FREE !in pids[..slot]
      {
        slot := slot + 1;
      }
      assert pids[..pids.Length] == pids[..];
      OccupiedUpdate(pids[..], slot, child);
      IdleSlotsUpdate(pids[..], states[..], slot, child, Idle);
      states[slot] := Idle;
      pids[slot] := child;
      idleCount := idleCount + 1;
      ok := true;
      assert pids[..] == old(pids[..])[slot := child] && states[..] == old(states[..])[slot := Idle];
    }

    /** del_1_server. */
    method DelServer() returns (killed: bool)
      requires Valid()
      modifies this`idleCount, pids
      ensures Valid() && (old(Exact()) ==> Exact())
      ensures killed <==>
        old(idleCount) > 0 && exists i :: 0 <= i < pids.Length && old(pids[..])[i] != FREE && states[i] == Idle
      ensures !killed ==> idleCount == old(idleCount) && pids[..] == old(pids[..])
      ensures killed ==> idleCount == old(idleCount) - 1
      ensures killed ==> exists i :: FirstIdle(old(pids[..]), states[..], i) && pids[..] == old(pids[..])[i := FREE]
      ensures killed ==> exists i ::
        && 0 <= i < pids.Length && old(pids[..])[i] != FREE && states[i] == Idle
        && (forall k :: 0 <= k < i ==> old(pids[..])[k] == FREE || states[k] == Busy)
        && pids[..] == old(pids[..])[i := FREE]
    {
      if idleCount == 0 {
        return false;
      }
      for i := 0 to pids.Length
        invariant forall k :: 0 <= k < i ==> pids[k] == FREE || states[k] == Busy
        invariant pids[..] == old(pids[..]) && idleCount == old(idleCount)
      {
        if pids[i] != FREE && states[i] == Idle {
          ghost var now := states[..];
          OccupiedUpdate(pids[..], i, FREE);
          IdleSlotsUpdate(pids[..], states[..], i, FREE, states[i]);
          assert now[i := states[i]] == now;
          pids[i] := FREE;
          idleCount := idleCount - 1;
          assert pids[..] == old(pids[..])[i := FREE] && states[..] == now;
          assert FirstIdle(old(pids[..]), states[..], i);
          return true;
        }
      }
      return false;
    }

    /** The deletions of one round, with a bound that moves. */
    method Shrink(maxSpare: nat, r: Round)
      requires Valid() && Fitting(r, pids.Length) && idleCount > maxSpare
      modifies this`idleCount, pids, states
      ensures Valid() && idleCount <= old(idleCount)
      ensures idleCount >= old(idleCount) - Half(old(idleCount) - maxSpare)
      ensures Calm(r) && old(Exact()) ==> Exact() && idleCount == old(idleCount) - Half(old(idleCount) - maxSpare)
    {
      ghost var steady := Calm(r) && Exact();
      var i: nat := 0;
      while i < idleCount - maxSpare
        invariant Valid()
        invariant old(idleCount) - i <= idleCount <= old(idleCount)
        invariant 2 * (old(idleCount) - idleCount) <= old(idleCount) - maxSpare + 1
        invariant steady ==> Exact() && idleCount == old(idleCount) - i
        decreases idleCount - maxSpare - i
      {
        Children(r.during(i));
        if steady && forall j :: 0 <= j < pids.Length ==> pids[..][j] == FREE || states[..][j] == Busy {
          NoneIdle(pids[..], states[..]);
        }
        var killed := DelServer();
        i := i + 1;
      }
    }

    /** The additions of one round, with a bound that moves. */
    method Grow(minSpare: nat, r: Round)
      requires Valid() && Fitting(r, pids.Length) && idleCount < minSpare
      modifies this`idleCount, pids, states
      ensures Valid()
      ensures idleCount ==
              old(idleCount) + Min(Half(minSpare - old(idleCount)), pids.Length - old(idleCount) - busyCount)
      ensures Calm(r) && old(Exact()) ==> Exact()
    {
      OccupiedFull(pids[..]);
      ghost var room := pids.Length - idleCount - busyCount;
      var i: nat := 0;
      while i < minSpare - idleCount
        invariant Valid() && idleCount == old(idleCount) + Min(i, room)
        invariant 2 * Min(i, room) <= minSpare - old(idleCount) + 1
        invariant Calm(r) && old(Exact()) ==> Exact()
        decreases minSpare - idleCount - i
      {
        Children(r.during(i));
        var ok := AddServer(r.forks(i));
        i := i + 1;
      }
    }

    /** The control step of main after a scan. Whatever the children do, the counters keep matching the table and a
    deletion pass never undershoots the band; without flips it corrects exactly half the excess, rounded up, and an
    addition pass half the deficit or as much as the table has room for. */
    method ControlPass(minSpare: nat, maxSpare: nat, r: Round)
      requires Valid() && minSpare <= maxSpare && Fitting(r, pids.Length)
      modifies this`idleCount, pids, states
      ensures Valid()
      ensures minSpare <= old(idleCount) <= maxSpare ==>
        idleCount == old(idleCount) && pids[..] == old(pids[..]) && states[..] == old(states[..])
      ensures old(idleCount) > maxSpare ==>
        Pass(old(idleCount), busyCount, pids.Length, minSpare, maxSpare) <= idleCount <= old(idleCount)
      ensures old(idleCount) <= maxSpare || (Calm(r) && old(Exact())) ==>
        idleCount == Pass(old(idleCount), busyCount, pids.Length, minSpare, maxSpare)
      ensures Calm(r) && old(Exact()) ==> Exact()
    {
      if idleCount > maxSpare {
        Shrink(maxSpare, r);
      } else if idleCount < minSpare {
        Grow(minSpare, r);
      }
    }

    /** One round of main's loop: the children at work, the scan, the control step. Without a flip it is one pass over
    the numbers of idle and busy children that are still alive. */
    method ControlRound(minSpare: nat, maxSpare: nat, r: Round) returns (aborted: bool)
      requires Valid() && minSpare <= maxSpare && Fitting(r, pids.Length)
      modifies this, pids, states
      ensures !aborted ==> Valid()
      ensures Calm(r) ==>
        var alive := Reaped(old(pids[..]), r.dead);
        var idle := IdleSlots(alive, old(states[..]));
        var busy := Occupied(alive) - idle;
        && !aborted && Exact()
        && idleCount == Pass(idle, busy, pids.Length, minSpare, maxSpare) && busyCount == busy
        && (minSpare <= idle <= maxSpare ==> pids[..] == alive && states[..] == old(states[..]))
    {
      Children(r.before);
      if Calm(r) {
        QuietScan(r.again);
      }
      aborted := ScanPool(r.dead, r.again);
      if aborted {
        return;
      }
      ControlPass(minSpare, maxSpare, r);
    }

    /** The endless loop of main, for as many rounds as the environment plays: scan, then control. Without a flip or a
    death it never aborts, and the idle children become what the same number of passes makes of their number; so the
    band is reached in logarithmically many rounds, and in the band the table does not change any more. */
    method ControlLoop(minSpare: nat, maxSpare: nat, rounds: seq<Round>) returns (aborted: bool)
      requires Valid() && minSpare <= maxSpare
      requires forall k :: 0 <= k < |rounds| ==> Fitting(rounds[k], pids.Length)
      modifies this, pids, states
      ensures !aborted ==> Valid()
      ensures (forall k :: 0 <= k < |rounds| ==> Quiet(rounds[k])) ==>
        var n, cap := |rounds|, pids.Length;
        var idle := IdleSlots(old(pids[..]), old(states[..]));
        var busy := Occupied(old(pids[..])) - idle;
        && !aborted && (n > 0 ==> Exact())
        && IdleSlots(pids[..], states[..]) == Passes(n, idle, busy, cap, minSpare, maxSpare)
        && Occupied(pids[..]) == IdleSlots(pids[..], states[..]) + busy
        && (Gap(idle, minSpare, maxSpare) < Pow2(n) && busy + minSpare <= cap ==>
              minSpare <= IdleSlots(pids[..], states[..]) <= maxSpare)
        && (minSpare <= idle <= maxSpare ==> pids[..] == old(pids[..]) && states[..] == old(states[..]))
    {
      ghost var quiet := forall k :: 0 <= k < |rounds| ==> Quiet(rounds[k]);
      ghost var idle := IdleSlots(pids[..], states[..]);
      ghost var busy := Occupied(pids[..]) - idle;
      for n := 0 to |rounds|
        invariant Valid()
        invariant quiet ==> IdleSlots(pids[..], states[..]) == Passes(n, idle, busy, pids.Length, minSpare, maxSpare)
        invariant quiet ==> Occupied(pids[..]) == IdleSlots(pids[..], states[..]) + busy
        invariant quiet && n > 0 ==> Exact()
        invariant quiet && minSpare <= idle <= maxSpare ==> pids[..] == old(pids[..]) && states[..] == old(states[..])
      {
        if quiet {
          assert Quiet(rounds[n]);
          ReapedNone(pids[..], rounds[n].dead);
        }
        aborted := ControlRound(minSpare, maxSpare, rounds[n]);
        if aborted {
          return;
        }
        if quiet {
          PassesSnoc(n, idle, busy, pids.Length, minSpare, maxSpare);
        }
      }
      aborted := false;
      IdleAtMost(old(pids[..]), old(states[..]));
      PassesConverge(|rounds|, idle, busy, pids.Length, minSpare, maxSpare);
    }
  }

  lemma QuietScan(again: seq<bool>)
    requires true !in again
    ensures forall i :: 0 <= i < |again| ==> !again[i]
  {
    assert forall i :: 0 <= i < |again| ==> again[i] in again;
  }

  lemma {:induction false} IdleAtMost(pids: seq<int>, states: seq<Activity>)
    requires |pids| == |states|
    ensures IdleSlots(pids, states) <= Occupied(pids) <= |pids|
  {
    if pids != [] { IdleAtMost(pids[1..], states[1..]); }
  }

  lemma ReapedNone(pids: seq<int>, dead: seq<bool>)
    requires |pids| == |dead| && true !in dead
    ensures Reaped(pids, dead) == pids
  {
    assert forall i :: 0 <= i < |dead| ==> dead[i] in dead;
  }

  lemma {:induction false} PassesSnoc(n: nat, idle: int, busy: int, cap: nat, minSpare: nat, maxSpare: nat)
    ensures Passes(n + 1, idle, busy, cap, minSpare, maxSpare) ==
            Pass(Passes(n, idle, busy, cap, minSpare, maxSpare), busy, cap, minSpare, maxSpare)
    decreases n
  {
    if n > 0 { PassesSnoc(n - 1, Pass(idle, busy, cap, minSpare, maxSpare), busy, cap, minSpare, maxSpare); }
  }

  lemma {:induction false} AllFree(pids: seq<int>)
    requires forall i :: 0 <= i < |pids| ==> pids[i] == FREE
    ensures Occupied(pids) == 0
  {
    if pids != [] { AllFree(pids[1..]); }
  }

  // ----- repeated passes

  /** How far the number of spare servers is outside the band. */
  function Gap(idle: int, minSpare: nat, maxSpare: nat): int {
    if idle > maxSpare then idle - maxSpare else if idle < minSpare then minSpare - idle else 0
  }

  function Pow2(n: nat): (r: nat)
    ensures r > 0
  {
    if n == 0 then 1 else 2 * Pow2(n - 1)
  }

  function Passes(n: nat, idle: int, busy: int, cap: nat, minSpare: nat, maxSpare: nat): int {
    if n == 0 then idle else Passes(n - 1, Pass(idle, busy, cap, minSpare, maxSpare), busy, cap, minSpare, maxSpare)
  }

  lemma PassHalvesGap(idle: int, busy: nat, cap: nat, minSpare: nat, maxSpare: nat)
    requires 0 <= idle && idle + busy <= cap && minSpare <= maxSpare
    ensures var next := Pass(idle, busy, cap, minSpare, maxSpare);
            && 0 <= next && next + busy <= cap
            && (idle + busy == cap && idle < minSpare ==> next == idle)
            && ((next + busy == cap && next <= minSpare)
                || Gap(next, minSpare, maxSpare) == Gap(idle, minSpare, maxSpare) / 2)
  {
  }

  /** n quiet passes leave exactly the gap divided by 2^n, unless the additions have filled the table; so the band
  is reached in logarithmically many passes, and kept. */
  lemma {:induction false} PassesConverge(n: nat, idle: int, busy: nat, cap: nat, minSpare: nat, maxSpare: nat)
    requires 0 <= idle && idle + busy <= cap && minSpare <= maxSpare
    ensures var last := Passes(n, idle, busy, cap, minSpare, maxSpare);
            || (last + busy == cap && last <= minSpare)
            || Gap(last, minSpare, maxSpare) == Gap(idle, minSpare, maxSpare) / Pow2(n)
    ensures Gap(idle, minSpare, maxSpare) < Pow2(n) && cap >= busy + minSpare ==>
            minSpare <= Passes(n, idle, busy, cap, minSpare, maxSpare) <= maxSpare
    decreases n
  {
    if n > 0 {
      var next := Pass(idle, busy, cap, minSpare, maxSpare);
      PassHalvesGap(idle, busy, cap, minSpare, maxSpare);
      PassesConverge(n - 1, next, busy, cap, minSpare, maxSpare);
      if next + busy == cap && next <= minSpare {
        FullStays(n - 1, next, busy, cap, minSpare, maxSpare);
      } else {
        HalfThenPow(Gap(idle, minSpare, maxSpare), Pow2(n - 1));
      }
    }
  }

  lemma {:induction false} FullStays(n: nat, idle: int, busy: nat, cap: nat, minSpare: nat, maxSpare: nat)
    requires idle + busy == cap && 0 <= idle <= minSpare <= maxSpare
    ensures Passes(n, idle, busy, cap, minSpare, maxSpare) == idle
    decreases n
  {
    if n > 0 { FullStays(n - 1, idle, busy, cap, minSpare, maxSpare); }
  }

  lemma HalfThenPow(g: nat, p: nat)
    requires p > 0
    ensures (g / 2) / p == g / (2 * p)
    ensures g < 2 * p ==> g / 2 < p
  {
    var q, r := (g / 2) / p, (g / 2) % p;
    assert g / 2 == q * p + r;
    assert g == (2 * p) * q + (2 * r + g % 2);
    DivUnique(g, 2 * p, q, 2 * r + g % 2);
  }
}
