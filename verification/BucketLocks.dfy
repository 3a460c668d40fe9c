/** The table of token buckets in thread/posix/mytbf_multithread/mytbf.c with its two levels of locks: `mut_job` guards
the table and is held by the refill thread for a whole sweep, each bucket has its own mutex and condition variable, and
a bucket is freed only after it has left the table. Locks are taken and released in separate steps, so waiting is
visible. As the library expects, a bucket is destroyed once, by a thread that is its last user. */
module BucketLocks {
  import opened Arith
  import TokenBucket

  /** No bucket in a slot. */
  const NONE: int := -1

  /** What mytbf_init is called with. */
  datatype Rate = Rate(cps: nat, burst: nat)

  /** A bucket, and what has happened to it: how often it was refilled, and the tokens fetched, given back and cut off
  because it was full. */
  datatype Bucket = Bucket(pos: nat, rate: Rate, token: int, ticks: nat, fetched: nat, returned: nat, spilled: nat)

  /** An API call in progress on the bucket `id`: waiting for the table, holding it, about to free the bucket, waiting
  for the bucket's mutex, holding that, or asleep on the bucket's condition variable until there are tokens. A call
  with a size that is not positive takes no lock. */
  datatype Api =
    | Idle
    | WantInit(id: int) | InInit(id: int)
    | WantDestroy(id: int) | InDestroy(id: int) | Free(id: int)
    | WantFetch(id: int, size: nat) | InFetch(id: int, size: nat) | Asleep(id: int, size: nat)
    | WantReturn(id: int, size: nat) | InReturn(id: int, size: nat)

  /** The refill thread: asleep, at slot `i` holding the table, or also holding the mutex of the bucket in slot `i`. */
  datatype Sweeper = Rest | At(i: nat) | In(i: nat)

  /** `live` holds every allocated bucket. */
  datatype State = State(jobs: seq<int>, live: map<int, Bucket>, ws: seq<Api>, sweeper: Sweeper)

  predicate HoldsTable(a: Api) {
    a.InInit? || a.InDestroy?
  }

  predicate HoldsMutex(a: Api) {
    a.InFetch? || a.InReturn?
  }

  predicate IsFetch(a: Api) {
    a.WantFetch? || a.InFetch? || a.Asleep?
  }

  predicate IsUse(a: Api) {
    IsFetch(a) || a.WantReturn? || a.InReturn?
  }

  ghost predicate TableFree(s: State) {
    s.sweeper == Rest && forall k :: 0 <= k < |s.ws| ==> !HoldsTable(s.ws[k])
  }

  ghost predicate BucketFree(s: State, id: int) {
    && (forall k :: 0 <= k < |s.ws| && HoldsMutex(s.ws[k]) ==> s.ws[k].id != id)
    && (s.sweeper.In? && s.sweeper.i < |s.jobs| ==> s.jobs[s.sweeper.i] != id)
  }

  ghost predicate Linked(s: State, id: int) {
    id >= 0 && id in s.live && s.live[id].pos < |s.jobs| && s.jobs[s.live[id].pos] == id
  }

  predicate Mentions(a: Api, id: int) {
    !a.Idle? && a.id == id
  }

  // ----- steps

  /** A new bucket at this rate. */
  function NewBucket(rate: Rate): Bucket {
    Bucket(0, rate, 0, 0, 0, 0, 0)
  }

  function Refill(b: Bucket, more: nat): Bucket {
    b.(token := TokenBucket.Refilled(b.token, more, b.rate.burst),
       spilled := b.spilled + TokenBucket.Spill(b.token, more, b.rate.burst))
  }

  /** The refill thread at a bucket. */
  function Swept(b: Bucket): Bucket {
    Refill(b, b.rate.cps).(ticks := b.ticks + 1)
  }

  /** mytbf_returnToken at a bucket. */
  function Returned(b: Bucket, size: nat): Bucket {
    Refill(b, size).(returned := b.returned + size)
  }

  /** mytbf_fetchToken at a bucket that has tokens. */
  function Drawn(b: Bucket, size: nat): Bucket
    requires b.token > 0
  {
    var n := TokenBucket.Grant(b.token, size);
    b.(token := b.token - n, fetched := b.fetched + n)
  }

  /** What a broadcast on the bucket's condition variable does to one call. */
  function WokenCall(a: Api, id: int): Api {
    if a.Asleep? && a.id == id then WantFetch(id, a.size) else a
  }

  function Woken(ws: seq<Api>, id: int): (r: seq<Api>)
    ensures |r| == |ws| && forall k :: 0 <= k < |ws| ==> r[k] == WokenCall(ws[k], id)
  {
    seq(|ws|, k requires 0 <= k < |ws| => WokenCall(ws[k], id))
  }

  /** A call begins: init allocates a new, empty bucket at one of the given rates; destroy names a bucket in the table
  that nobody else is at, fetch and return one that nobody is creating or destroying. */
  ghost predicate Begin(rates: set<Rate>, s: State, k: nat, s': State)
    requires k < |s.ws|
  {
    && s.ws[k] == Idle && |s'.ws| == |s.ws|
    && match s'.ws[k]
       case WantInit(id) =>
         && id >= 0 && id !in s.live
         && exists rate :: rate in rates &&
              s' == s.(live := s.live[id := NewBucket(rate)], ws := s.ws[k := WantInit(id)])
       case WantDestroy(id) => JoinsCalls(s, k, WantDestroy(id), s')
       case WantFetch(id, size) => size > 0 && JoinsCalls(s, k, WantFetch(id, size), s')
       case WantReturn(id, size) => size > 0 && JoinsCalls(s, k, WantReturn(id, size), s')
       case _ => false
  }

  ghost predicate JoinsCalls(s: State, k: nat, a: Api, s': State)
    requires k < |s.ws| && !a.Idle?
  {
    && Linked(s, a.id) && s' == s.(ws := s.ws[k := a])
    && forall j :: 0 <= j < |s.ws| && Mentions(s.ws[j], a.id) ==> IsUse(s.ws[j]) && IsUse(a)
  }

  /** A call goes on; without its lock it waits, and no step is possible. A fetch that finds no token gives the mutex
  back and sleeps; it gets on when it is woken. */
  ghost predicate Continue(s: State, k: nat, s': State)
    requires k < |s.ws|
  {
    match s.ws[k]
    case Idle => false
    case WantInit(id) => TableFree(s) && s' == s.(ws := s.ws[k := InInit(id)])
    case InInit(id) =>
      && id in s.live
      && if exists p :: 0 <= p < |s.jobs| && s.jobs[p] == NONE then
           exists p: nat ::
             && p < |s.jobs| && s.jobs[p] == NONE && (forall q :: 0 <= q < p ==> s.jobs[q] != NONE)
             && s' == s.(jobs := s.jobs[p := id], live := s.live[id := s.live[id].(pos := p)], ws := s.ws[k := Idle])
         else s' == s.(live := s.live - {id}, ws := s.ws[k := Idle])
    case WantDestroy(id) => TableFree(s) && s' == s.(ws := s.ws[k := InDestroy(id)])
    case InDestroy(id) =>
      && id in s.live && s.live[id].pos < |s.jobs|
      && s' == s.(jobs := s.jobs[s.live[id].pos := NONE], ws := s.ws[k := Free(id)])
    case Free(id) => s' == s.(live := s.live - {id}, ws := s.ws[k := Idle])
    case WantFetch(id, size) => BucketFree(s, id) && s' == s.(ws := s.ws[k := InFetch(id, size)])
    case InFetch(id, size) => id in s.live && s' == Fetched(s, k, id, size)
    case Asleep(_, _) => false
    case WantReturn(id, size) => BucketFree(s, id) && s' == s.(ws := s.ws[k := InReturn(id, size)])
    case InReturn(id, size) =>
      && id in s.live
      && s' == s.(live := s.live[id := Returned(s.live[id], size)], ws := Woken(s.ws[k := Idle], id))
  }

  /** mytbf_fetchToken with the mutex: take what there is, up to `size`, or sleep. */
  function Fetched(s: State, k: nat, id: int, size: nat): State
    requires k < |s.ws| && id in s.live
  {
    var b := s.live[id];
    if b.token <= 0 then s.(ws := s.ws[k := Asleep(id, size)])
    else s.(live := s.live[id := Drawn(b, size)], ws := s.ws[k := Idle])
  }

  /** thr_alarm, one lock operation at a time; with a bucket's mutex it refills the bucket and wakes its sleepers. */
  ghost predicate Sweep(s: State, s': State) {
    match s.sweeper
    case Rest => TableFree(s) && s' == s.(sweeper := At(0))
    case At(i) =>
      if i >= |s.jobs| then s' == s.(sweeper := Rest)
      else if s.jobs[i] < 0 then s' == s.(sweeper := At(i + 1))
      else BucketFree(s, s.jobs[i]) && s' == s.(sweeper := In(i))
    case In(i) =>
      && i < |s.jobs| && s.jobs[i] in s.live
      && var id := s.jobs[i];
         s' == s.(live := s.live[id := Swept(s.live[id])], ws := Woken(s.ws, id),
                  sweeper := At(i + 1))
  }

  /** A fetch wakes up for no reason. */
  ghost predicate Spurious(s: State, s': State) {
    exists k: nat :: k < |s.ws| && s.ws[k].Asleep? && s' == s.(ws := s.ws[k := WantFetch(s.ws[k].id, s.ws[k].size)])
  }

  /** The refill thread or a call in progress takes a step. */
  ghost predicate Acts(s: State, s': State) {
    Sweep(s, s') || exists k: nat :: k < |s.ws| && Continue(s, k, s')
  }

  ghost predicate Next(rates: set<Rate>, s: State, s': State) {
    Acts(s, s') || Spurious(s, s') || exists k: nat :: k < |s.ws| && Begin(rates, s, k, s')
  }

  ghost predicate Init(s: State) {
    && s.live == map[] && s.sweeper == Rest
    && (forall i :: 0 <= i < |s.jobs| ==> s.jobs[i] == NONE)
    && (forall k :: 0 <= k < |s.ws| ==> s.ws[k] == Idle)
  }

  ghost predicate IsRun(rates: set<Rate>, run: seq<State>) {
    |run| > 0 && forall k :: 0 < k < |run| ==> Next(rates, run[k - 1], run[k])
  }

  // ----- the invariant of the locks

  /** Every occupied slot holds a live bucket whose `pos` is that slot. */
  ghost predicate TableSound(s: State) {
    forall i :: 0 <= i < |s.jobs| && s.jobs[i] != NONE ==>
      s.jobs[i] >= 0 && s.jobs[i] in s.live && s.live[s.jobs[i]].pos == i
  }

  ghost predicate CallSound(s: State, a: Api) {
    match a
    case Idle => true
    case WantInit(id) => id >= 0 && id in s.live && id !in s.jobs
    case InInit(id) => id >= 0 && id in s.live && id !in s.jobs
    case Free(id) => id >= 0 && id in s.live && id !in s.jobs
    case _ => Linked(s, a.id)
  }

  /** Calls on the same bucket are all uses; the table and every mutex have one holder. */
  ghost predicate Exclusive(s: State) {
    && (forall k, j :: 0 <= k < j < |s.ws| && !s.ws[k].Idle? && !s.ws[j].Idle? && s.ws[k].id == s.ws[j].id ==>
          && IsUse(s.ws[k]) && IsUse(s.ws[j]) && !(HoldsMutex(s.ws[k]) && HoldsMutex(s.ws[j])))
    && (forall k, j :: 0 <= k < j < |s.ws| ==> !(HoldsTable(s.ws[k]) && HoldsTable(s.ws[j])))
    && (s.sweeper != Rest ==> forall k :: 0 <= k < |s.ws| ==> !HoldsTable(s.ws[k]))
    && (s.sweeper.In? ==>
          && s.sweeper.i < |s.jobs| && s.jobs[s.sweeper.i] >= 0
          && forall k :: 0 <= k < |s.ws| && HoldsMutex(s.ws[k]) ==> s.ws[k].id != s.jobs[s.sweeper.i])
  }

  ghost predicate Inv(s: State) {
    TableSound(s) && Exclusive(s) && forall k :: 0 <= k < |s.ws| ==> CallSound(s, s.ws[k])
  }

  /** A new bucket is nobody else's. */
  lemma AllocKeepsInv(s: State, k: nat, id: int, b: Bucket, s': State)
    requires Inv(s) && k < |s.ws| && s.ws[k] == Idle && id >= 0 && id !in s.live
    requires s' == s.(live := s.live[id := b], ws := s.ws[k := WantInit(id)])
    ensures Inv(s')
  {
    assert id !in s.jobs;
    forall j | 0 <= j < |s'.ws| ensures CallSound(s', s'.ws[j]) && (j != k ==> !Mentions(s.ws[j], id)) {
      assert CallSound(s, s.ws[j]);
    }
  }

  /** A call on a bucket in the table joins only uses of it. */
  lemma CallKeepsInv(s: State, k: nat, a: Api, s': State)
    requires Inv(s) && k < |s.ws| && s.ws[k] == Idle && (a.WantDestroy? || a.WantFetch? || a.WantReturn?)
    requires JoinsCalls(s, k, a, s')
    ensures Inv(s')
  {
    forall j | 0 <= j < |s'.ws| ensures CallSound(s', s'.ws[j]) {
      assert CallSound(s, s.ws[j]);
    }
    CallExclusive(s, k, a, s');
  }

  lemma CallExclusive(s: State, k: nat, a: Api, s': State)
    requires Exclusive(s) && k < |s.ws| && s.ws[k] == Idle && (a.WantDestroy? || a.WantFetch? || a.WantReturn?)
    requires JoinsCalls(s, k, a, s')
    ensures Exclusive(s')
  {
    forall j | 0 <= j < |s.ws| && !s.ws[j].Idle? && s.ws[j].id == a.id ensures IsUse(s.ws[j]) && IsUse(a) {
      assert Mentions(s.ws[j], a.id);
    }
  }

  lemma BeginKeepsInv(rates: set<Rate>, s: State, k: nat, s': State)
    requires Inv(s) && k < |s.ws| && Begin(rates, s, k, s')
    ensures Inv(s')
  {
    if s'.ws[k].WantInit? {
      var id := s'.ws[k].id;
      AllocKeepsInv(s, k, id, s'.live[id], s');
    } else {
      CallKeepsInv(s, k, s'.ws[k], s');
    }
  }

  /** A call takes or drops a lock, falls asleep or wakes up: nobody's bucket changes. */
  lemma RelabelKeepsInv(s: State, k: nat, a: Api, s': State)
    requires Inv(s) && k < |s.ws| && !s.ws[k].Idle? && s' == s.(ws := s.ws[k := a])
    requires a.Idle? || (a.id == s.ws[k].id && IsUse(a) == IsUse(s.ws[k]) && CallSound(s, a))
    requires HoldsTable(a) ==> TableFree(s)
    requires HoldsMutex(a) ==> BucketFree(s, a.id)
    ensures Inv(s')
  {
    forall j | 0 <= j < |s'.ws| ensures CallSound(s', s'.ws[j]) {
      assert CallSound(s, s.ws[j]);
    }
  }

  /** A bucket's tokens change, or its sleepers wake up. */
  lemma TokensKeepInv(s: State, id: int, b: Bucket, s': State)
    requires Inv(s) && Linked(s, id) && b.pos == s.live[id].pos
    requires s' == s.(live := s.live[id := b], ws := s'.ws) && (s'.ws == s.ws || s'.ws == Woken(s.ws, id))
    ensures Inv(s')
  {
    forall j | 0 <= j < |s'.ws| ensures CallSound(s', s'.ws[j]) {
      assert CallSound(s, s.ws[j]);
    }
  }

  lemma FetchKeepsInv(s: State, k: nat, s': State)
    requires Inv(s) && k < |s.ws| && s.ws[k].InFetch? && Continue(s, k, s')
    ensures Inv(s')
  {
    var id, size := s.ws[k].id, s.ws[k].size;
    assert CallSound(s, s.ws[k]);
    if s.live[id].token <= 0 {
      RelabelKeepsInv(s, k, Asleep(id, size), s');
    } else {
      var s1 := s.(ws := s.ws[k := Idle]);
      RelabelKeepsInv(s, k, Idle, s1);
      TokensKeepInv(s1, id, s'.live[id], s');
    }
  }

  lemma ReturnKeepsInv(s: State, k: nat, s': State)
    requires Inv(s) && k < |s.ws| && s.ws[k].InReturn? && Continue(s, k, s')
    ensures Inv(s')
  {
    var id := s.ws[k].id;
    assert CallSound(s, s.ws[k]);
    var s1 := s.(ws := s.ws[k := Idle]);
    RelabelKeepsInv(s, k, Idle, s1);
    TokensKeepInv(s1, id, s'.live[id], s');
  }

  lemma SweepKeepsInv(s: State, s': State)
    requires Inv(s) && Sweep(s, s')
    ensures Inv(s')
  {
    if s.sweeper.In? {
      var id, s1 := s.jobs[s.sweeper.i], s.(sweeper := At(s.sweeper.i + 1));
      assert Inv(s1) by { SweeperKeepsCalls(s, s1); }
      TokensKeepInv(s1, id, s'.live[id], s');
    } else {
      SweeperKeepsCalls(s, s');
    }
  }

  lemma SweeperKeepsCalls(s: State, s': State)
    requires Inv(s) && s' == s.(sweeper := s'.sweeper)
    requires s.sweeper == Rest ==> TableFree(s)
    requires s'.sweeper.In? ==>
               && s'.sweeper.i < |s.jobs| && s.jobs[s'.sweeper.i] >= 0 && BucketFree(s, s.jobs[s'.sweeper.i])
    ensures Inv(s')
  {
    forall k | 0 <= k < |s'.ws| ensures CallSound(s', s'.ws[k]) {
      assert CallSound(s, s.ws[k]);
    }
  }

  lemma LockKeepsInv(s: State, k: nat, s': State)
    requires Inv(s) && k < |s.ws| && Continue(s, k, s')
    requires !HoldsTable(s.ws[k]) && !HoldsMutex(s.ws[k]) && !s.ws[k].Free?
    ensures Inv(s')
  {
    assert CallSound(s, s.ws[k]);
    RelabelKeepsInv(s, k, s'.ws[k], s');
  }

  lemma PublishKeepsInv(s: State, k: nat, p: nat, s': State)
    requires Inv(s) && k < |s.ws| && s.ws[k].InInit? && p < |s.jobs| && s.jobs[p] == NONE && s.ws[k].id in s.live
    requires var id := s.ws[k].id;
             s' == s.(jobs := s.jobs[p := id], live := s.live[id := s.live[id].(pos := p)], ws := s.ws[k := Idle])
    ensures Inv(s')
  {
    var id := s.ws[k].id;
    assert CallSound(s, s.ws[k]);
    forall j | 0 <= j < |s'.ws| ensures CallSound(s', s'.ws[j]) {
      assert CallSound(s, s.ws[j]);
      if j != k && !s.ws[j].Idle? {
        assert s.ws[j].id != id;
        assert s.ws[j].id in s'.jobs ==> s.ws[j].id in s.jobs;
      }
    }
  }

  lemma UnlinkKeepsInv(s: State, k: nat, s': State)
    requires Inv(s) && k < |s.ws| && s.ws[k].InDestroy? && Continue(s, k, s')
    ensures Inv(s')
  {
    var id := s.ws[k].id;
    assert CallSound(s, s.ws[k]);
    forall j | 0 <= j < |s'.ws| ensures CallSound(s', s'.ws[j]) {
      assert CallSound(s, s.ws[j]);
      if j != k && !s.ws[j].Idle? {
        assert s.ws[j].id != id;
        assert s.ws[j].id in s'.jobs ==> s.ws[j].id in s.jobs;
      }
    }
  }

  lemma DisposeKeepsInv(s: State, k: nat, s': State)
    requires Inv(s) && k < |s.ws| && (s.ws[k].Free? || s.ws[k].InInit?)
    requires s' == s.(live := s.live - {s.ws[k].id}, ws := s.ws[k := Idle])
    ensures Inv(s')
  {
    assert CallSound(s, s.ws[k]);
    forall j | 0 <= j < |s'.ws| ensures CallSound(s', s'.ws[j]) {
      assert CallSound(s, s.ws[j]);
    }
  }

  lemma InitCallKeepsInv(s: State, k: nat, s': State)
    requires Inv(s) && k < |s.ws| && s.ws[k].InInit? && Continue(s, k, s')
    ensures Inv(s')
  {
    var id := s.ws[k].id;
    if exists p :: 0 <= p < |s.jobs| && s.jobs[p] == NONE {
      var p: nat :| p < |s.jobs| && s.jobs[p] == NONE &&
        s' == s.(jobs := s.jobs[p := id], live := s.live[id := s.live[id].(pos := p)], ws := s.ws[k := Idle]);
      PublishKeepsInv(s, k, p, s');
    } else {
      DisposeKeepsInv(s, k, s');
    }
  }

  lemma ContinueKeepsInv(s: State, k: nat, s': State)
    requires Inv(s) && k < |s.ws| && Continue(s, k, s')
    ensures Inv(s')
  {
    if s.ws[k].InInit? {
      InitCallKeepsInv(s, k, s');
    } else if s.ws[k].InDestroy? {
      UnlinkKeepsInv(s, k, s');
    } else if s.ws[k].Free? {
      DisposeKeepsInv(s, k, s');
    } else if s.ws[k].InFetch? {
      FetchKeepsInv(s, k, s');
    } else if s.ws[k].InReturn? {
      ReturnKeepsInv(s, k, s');
    } else {
      LockKeepsInv(s, k, s');
    }
  }

  lemma ActsKeepInv(s: State, s': State)
    requires Inv(s) && Acts(s, s')
    ensures Inv(s')
  {
    if Sweep(s, s') {
      SweepKeepsInv(s, s');
    } else {
      var k: nat :| k < |s.ws| && Continue(s, k, s');
      ContinueKeepsInv(s, k, s');
    }
  }

  lemma NextKeepsInv(rates: set<Rate>, s: State, s': State)
    requires Inv(s) && Next(rates, s, s')
    ensures Inv(s')
  {
    if Acts(s, s') {
      ActsKeepInv(s, s');
    } else if Spurious(s, s') {
      var k: nat :| k < |s.ws| && s.ws[k].Asleep? &&
        s' == s.(ws := s.ws[k := WantFetch(s.ws[k].id, s.ws[k].size)]);
      assert CallSound(s, s.ws[k]);
      RelabelKeepsInv(s, k, s'.ws[k], s');
    } else {
      var k: nat :| k < |s.ws| && Begin(rates, s, k, s');
      BeginKeepsInv(rates, s, k, s');
    }
  }

  /** Over every interleaving: slots and `pos` fields agree, the locks exclude, and no call or sweep is on a bucket
  that has been freed. */
  lemma {:induction false} RunKeepsInv(rates: set<Rate>, run: seq<State>, j: nat)
    requires IsRun(rates, run) && Init(run[0]) && j < |run|
    ensures Inv(run[j])
  {
    if j > 0 {
      RunKeepsInv(rates, run, j - 1);
      NextKeepsInv(rates, run[j - 1], run[j]);
    }
  }

  /** The slot at which the refill thread is, if there is a bucket in it. */
  ghost predicate SweepsAt(s: State, i: nat) {
    (s.sweeper == At(i) || s.sweeper == In(i)) && i < |s.jobs| && s.jobs[i] >= 0
  }

  /** The refill thread, while it waits for a bucket's mutex, while it holds it and when it lets go, is on a live bucket
  that is still in its slot: destruction cannot overtake a sweep. When it holds a mutex there is such a bucket. */
  lemma SweepNeverTouchesFreed(rates: set<Rate>, run: seq<State>, j: nat)
    requires IsRun(rates, run) && Init(run[0]) && j < |run|
    ensures forall i: nat :: SweepsAt(run[j], i) ==> Linked(run[j], run[j].jobs[i])
    ensures forall i: nat :: SweepsAt(run[j], i) && j + 1 < |run| ==> Linked(run[j + 1], run[j].jobs[i])
    ensures run[j].sweeper.In? ==> SweepsAt(run[j], run[j].sweeper.i)
  {
    RunKeepsInv(rates, run, j);
    forall i: nat | SweepsAt(run[j], i) && j + 1 < |run| ensures Linked(run[j + 1], run[j].jobs[i]) {
      StaysLinked(rates, run[j], run[j + 1], run[j].jobs[i]);
    }
  }

  lemma StaysLinked(rates: set<Rate>, s: State, s': State, id: int)
    requires Inv(s) && Next(rates, s, s') && s.sweeper != Rest && Linked(s, id)
    ensures Linked(s', id)
  {
    if k: nat :| k < |s.ws| && Continue(s, k, s') {
      assert CallSound(s, s.ws[k]);
    }
  }

  /** Whoever holds the innermost lock can go on: a mutex holder waits for nothing, a table holder at most for a mutex,
  and everyone else holds nothing. So locks never form a cycle of waiting: while a sweep or a call other than a sleeping
  fetch is in progress, somebody can move. */
  lemma SomeoneMoves(s: State) returns (s': State)
    requires Inv(s)
    requires s.sweeper != Rest || exists k :: 0 <= k < |s.ws| && !s.ws[k].Idle? && !s.ws[k].Asleep?
    ensures Acts(s, s')
  {
    if k: nat :| k < |s.ws| && HoldsMutex(s.ws[k]) {
      s' := GoOn(s, k);
    } else if s.sweeper != Rest {
      s' := SweepOn(s);
    } else if k: nat :| k < |s.ws| && HoldsTable(s.ws[k]) {
      s' := GoOn(s, k);
    } else {
      var k: nat :| k < |s.ws| && !s.ws[k].Idle? && !s.ws[k].Asleep?;
      s' := GoOn(s, k);
    }
  }

  /** The refill thread goes on when no call holds a mutex. */
  lemma SweepOn(s: State) returns (s': State)
    requires Inv(s) && s.sweeper != Rest && forall k :: 0 <= k < |s.ws| ==> !HoldsMutex(s.ws[k])
    ensures Sweep(s, s')
  {
    var i := s.sweeper.i;
    if s.sweeper.In? {
      var id := s.jobs[i];
      s' := s.(live := s.live[id := Swept(s.live[id])], ws := Woken(s.ws, id),
               sweeper := At(i + 1));
    } else {
      s' := s.(sweeper := if i >= |s.jobs| then Rest else if s.jobs[i] < 0 then At(i + 1) else In(i));
    }
  }

  /** A call goes on when it holds its lock, or finds it free. */
  lemma GoOn(s: State, k: nat) returns (s': State)
    requires Inv(s) && k < |s.ws| && !s.ws[k].Idle? && !s.ws[k].Asleep?
    requires HoldsMutex(s.ws[k]) || HoldsTable(s.ws[k]) || (TableFree(s) && BucketFree(s, s.ws[k].id))
    ensures Continue(s, k, s')
  {
    assert CallSound(s, s.ws[k]);
    match s.ws[k]
    case WantInit(id) => s' := s.(ws := s.ws[k := InInit(id)]);
    case InInit(id) =>
      if exists p :: 0 <= p < |s.jobs| && s.jobs[p] == NONE {
        var p := FirstFree(s.jobs);
        s' := s.(jobs := s.jobs[p := id], live := s.live[id := s.live[id].(pos := p)], ws := s.ws[k := Idle]);
      } else {
        s' := s.(live := s.live - {id}, ws := s.ws[k := Idle]);
      }
    case WantDestroy(id) => s' := s.(ws := s.ws[k := InDestroy(id)]);
    case InDestroy(id) => s' := s.(jobs := s.jobs[s.live[id].pos := NONE], ws := s.ws[k := Free(id)]);
    case Free(id) => s' := s.(live := s.live - {id}, ws := s.ws[k := Idle]);
    case WantFetch(id, size) => s' := s.(ws := s.ws[k := InFetch(id, size)]);
    case InFetch(id, size) => s' := Fetched(s, k, id, size);
    case WantReturn(id, size) => s' := s.(ws := s.ws[k := InReturn(id, size)]);
    case InReturn(id, size) =>
      s' := s.(live := s.live[id := Returned(s.live[id], size)], ws := Woken(s.ws[k := Idle], id));
  }

  lemma {:induction false} FirstFree(jobs: seq<int>) returns (p: nat)
    requires exists q :: 0 <= q < |jobs| && jobs[q] == NONE
    ensures p < |jobs| && jobs[p] == NONE && forall q :: 0 <= q < p ==> jobs[q] != NONE
  {
    p := 0;
    while jobs[p] != NONE
      invariant p < |jobs| && forall q :: 0 <= q < p ==> jobs[q] != NONE
      decreases |jobs| - p
    {
      p := p + 1;
    }
  }
}
