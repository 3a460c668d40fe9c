/** Tokens and progress of the table of token buckets in thread/posix/mytbf_multithread/mytbf.c: no fetch sleeps beside
tokens, and when exactly all calls in progress can complete. */
module BucketProgress {
  import opened Arith
  import opened BucketLocks
  import Runs

  // ----- the invariant of the tokens

  /** At most the burst is in the bucket; what is in it, was fetched and not given back, or was spilled is what the
  refills have brought. */
  predicate Accounts(b: Bucket) {
    0 <= b.token <= b.rate.burst && b.token + b.fetched - b.returned + b.spilled == b.rate.cps * b.ticks
  }

  /** Refills, returns and fetches keep the accounts, and tokens are spilled only at a bucket that is then full. A
  refill brings cps tokens as far as the bucket holds them, a fetch takes what it asks for or all there is. */
  lemma BucketLaws(b: Bucket, size: nat)
    requires Accounts(b)
    ensures Accounts(Swept(b)) && Accounts(Returned(b, size))
    ensures Swept(b).token == if b.token + b.rate.cps <= b.rate.burst then b.token + b.rate.cps else b.rate.burst
    ensures Returned(b, size).token == if b.token + size <= b.rate.burst then b.token + size else b.rate.burst
    ensures Swept(b).spilled > b.spilled ==> Swept(b).token == b.rate.burst
    ensures Returned(b, size).spilled > b.spilled ==> Returned(b, size).token == b.rate.burst
    ensures b.token > 0 ==>
      && Accounts(Drawn(b, size)) && Drawn(b, size).spilled == b.spilled
      && Drawn(b, size).token == if b.token <= size then 0 else b.token - size
  {
    assert b.rate.cps * (b.ticks + 1) == b.rate.cps * b.ticks + b.rate.cps;
  }

  /** Every bucket has one of the given rates, and its accounts are right. */
  ghost predicate Filled(rates: set<Rate>, s: State) {
    forall id :: id in s.live ==> s.live[id].rate in rates && Accounts(s.live[id])
  }

  /** A fetch that has not been woken sleeps at an empty bucket. */
  ghost predicate Sleepers(s: State) {
    forall k :: 0 <= k < |s.ws| && s.ws[k].Asleep? ==> s.ws[k].id in s.live && s.live[s.ws[k].id].token == 0
  }

  ghost predicate Tokens(rates: set<Rate>, s: State) {
    Filled(rates, s) && Sleepers(s)
  }

  lemma SweepKeepsTokens(rates: set<Rate>, s: State, s': State)
    requires Inv(s) && Tokens(rates, s) && Sweep(s, s')
    ensures Tokens(rates, s')
  {
    if s.sweeper.In? { BucketLaws(s.live[s.jobs[s.sweeper.i]], 0); }
    forall k | 0 <= k < |s'.ws| && s'.ws[k].Asleep? ensures s'.ws[k].id in s'.live && s'.live[s'.ws[k].id].token == 0 {
      assert s'.ws[k] == s.ws[k];
    }
  }

  lemma ContinueKeepsTokens(rates: set<Rate>, s: State, k: nat, s': State)
    requires Inv(s) && Tokens(rates, s) && k < |s.ws| && Continue(s, k, s')
    ensures Tokens(rates, s')
  {
    assert CallSound(s, s.ws[k]);
    if HoldsMutex(s.ws[k]) { BucketLaws(s.live[s.ws[k].id], s.ws[k].size); }
    forall j | 0 <= j < |s'.ws| && s'.ws[j].Asleep? ensures s'.ws[j].id in s'.live && s'.live[s'.ws[j].id].token == 0 {
      if j != k {
        assert s'.ws[j] == s.ws[j];
        assert CallSound(s, s.ws[j]);
      }
    }
  }

  lemma ActsKeepTokens(rates: set<Rate>, s: State, s': State)
    requires Inv(s) && Tokens(rates, s) && Acts(s, s')
    ensures Tokens(rates, s')
  {
    if Sweep(s, s') {
      SweepKeepsTokens(rates, s, s');
    } else {
      var k: nat :| k < |s.ws| && Continue(s, k, s');
      ContinueKeepsTokens(rates, s, k, s');
    }
  }

  lemma NextKeepsTokens(rates: set<Rate>, s: State, s': State)
    requires Inv(s) && Tokens(rates, s) && Next(rates, s, s')
    ensures Tokens(rates, s')
  {
    if Acts(s, s') {
      ActsKeepTokens(rates, s, s');
    }
  }

  /** Over every interleaving of calls and sweeps and for any rates: tokens stay within the burst of their bucket, and a
  fetch that has not been woken sleeps at an empty bucket. */
  lemma {:induction false} RunKeepsTokens(rates: set<Rate>, run: seq<State>, j: nat)
    requires IsRun(rates, run) && Init(run[0]) && j < |run|
    ensures Inv(run[j]) && Tokens(rates, run[j])
  {
    if j > 0 {
      RunKeepsTokens(rates, run, j - 1);
      NextKeepsInv(rates, run[j - 1], run[j]);
      NextKeepsTokens(rates, run[j - 1], run[j]);
    }
  }

  // ----- how far the calls are from completion

  predicate Positive(r: Rate) {
    r.cps > 0 && r.burst > 0
  }

  ghost predicate AllPositive(rates: set<Rate>) {
    forall r :: r in rates ==> Positive(r)
  }

  /** How many calls are in progress. */
  function Pending(ws: seq<Api>): nat {
    if ws == [] then 0 else (if ws[0].Idle? then 0 else 1) + Pending(ws[1..])
  }

  lemma {:induction false} PendingUpdate(ws: seq<Api>, k: nat, a: Api)
    requires k < |ws|
    ensures Pending(ws[k := a]) == Pending(ws) - (if ws[k].Idle? then 0 else 1) + (if a.Idle? then 0 else 1)
  {
    if k > 0 {
      assert ws[k := a][1..] == ws[1..][k - 1 := a];
      PendingUpdate(ws[1..], k - 1, a);
    } else {
      assert ws[k := a][1..] == ws[1..];
    }
  }

  lemma {:induction false} PendingWoken(ws: seq<Api>, id: int)
    ensures Pending(Woken(ws, id)) == Pending(ws)
  {
    if ws != [] {
      assert Woken(ws, id)[1..] == Woken(ws[1..], id);
      PendingWoken(ws[1..], id);
    }
  }

  /** Lock operations between a call and its end, or its sleep. */
  function CallSteps(a: Api): nat {
    match a
    case Idle => 0
    case WantInit(_) => 2 case InInit(_) => 1
    case WantDestroy(_) => 3 case InDestroy(_) => 2 case Free(_) => 1
    case WantFetch(_, _) => 2 case InFetch(_, _) => 1 case Asleep(_, _) => 0
    case WantReturn(_, _) => 2 case InReturn(_, _) => 1
  }

  function Steps(ws: seq<Api>): nat {
    if ws == [] then 0 else CallSteps(ws[0]) + Steps(ws[1..])
  }

  lemma {:induction false} StepsUpdate(ws: seq<Api>, k: nat, a: Api)
    requires k < |ws|
    ensures Steps(ws[k := a]) == Steps(ws) - CallSteps(ws[k]) + CallSteps(a)
  {
    if k > 0 {
      assert ws[k := a][1..] == ws[1..][k - 1 := a];
      StepsUpdate(ws[1..], k - 1, a);
    } else {
      assert ws[k := a][1..] == ws[1..];
    }
  }

  function SweepSteps(s: State): nat {
    match s.sweeper
    case Rest => 0
    case At(i) => if i >= |s.jobs| then 1 else 2 * (|s.jobs| - i) + 1
    case In(i) => if i >= |s.jobs| then 2 else 2 * (|s.jobs| - i)
  }

  /** A call that needs no refill: it is no fetch, or there are tokens for it. */
  predicate Served(s: State, a: Api) {
    !a.Idle? && (IsFetch(a) ==> a.id in s.live && s.live[a.id].token > 0)
  }

  ghost predicate SomeServed(s: State) {
    exists k :: 0 <= k < |s.ws| && Served(s, s.ws[k])
  }

  /** The sweep in progress has not passed this fetch's bucket. */
  predicate Awaits(s: State, a: Api) {
    IsFetch(a) && a.id in s.live && s.sweeper != Rest && s.sweeper.i <= s.live[a.id].pos
  }

  ghost predicate SomeAwaits(s: State) {
    exists k :: 0 <= k < |s.ws| && Awaits(s, s.ws[k])
  }

  /** Some call can complete; or the sweep in progress will see to that; or the next one; or this one must end first. */
  ghost function Stage(s: State): nat {
    if SomeServed(s) then 0 else if s.sweeper == Rest then 2 else if SomeAwaits(s) then 1 else 3
  }

  /** `s'` is nearer to the completion of all calls. */
  ghost predicate Nearer(s: State, s': State) {
    || Pending(s'.ws) < Pending(s.ws)
    || (Pending(s'.ws) == Pending(s.ws) &&
        (|| Stage(s') < Stage(s)
         || (Stage(s') == Stage(s) &&
             (|| SweepSteps(s') < SweepSteps(s)
              || (SweepSteps(s') == SweepSteps(s) && Steps(s'.ws) < Steps(s.ws))))))
  }

  /** What the lemmas below work with. */
  ghost predicate Good(rates: set<Rate>, s: State) {
    Inv(s) && Tokens(rates, s) && AllPositive(rates)
  }

  // ----- one step nearer

  /** A mutex holder completes, or falls asleep at an empty bucket. */
  lemma HolderNearer(rates: set<Rate>, s: State, k: nat, s': State)
    requires Good(rates, s) && k < |s.ws| && HoldsMutex(s.ws[k]) && Continue(s, k, s')
    ensures Nearer(s, s')
  {
    var id := s.ws[k].id;
    if s.ws[k].InReturn? {
      PendingUpdate(s.ws, k, Idle);
      PendingWoken(s.ws[k := Idle], id);
    } else if s.live[id].token > 0 {
      PendingUpdate(s.ws, k, Idle);
    } else {
      var a := Asleep(id, s.ws[k].size);
      PendingUpdate(s.ws, k, a);
      StepsUpdate(s.ws, k, a);
      SameStage(s, k, a, s');
    }
  }

  /** A fetch at an empty bucket stays one, whatever it does about locks. */
  lemma SameStage(s: State, k: nat, a: Api, s': State)
    requires k < |s.ws| && IsFetch(s.ws[k]) && IsFetch(a) && a.id == s.ws[k].id && s' == s.(ws := s.ws[k := a])
    ensures Stage(s') == Stage(s)
  {
    if SomeServed(s) {
      var j :| 0 <= j < |s.ws| && Served(s, s.ws[j]);
      assert Served(s', s'.ws[j]);
    }
    if SomeServed(s') {
      var j :| 0 <= j < |s'.ws| && Served(s', s'.ws[j]);
      assert Served(s, s.ws[j]);
    }
    if SomeAwaits(s) {
      var j :| 0 <= j < |s.ws| && Awaits(s, s.ws[j]);
      assert Awaits(s', s'.ws[j]);
    }
    if SomeAwaits(s') {
      var j :| 0 <= j < |s'.ws| && Awaits(s', s'.ws[j]);
      assert Awaits(s, s.ws[j]);
    }
  }

  /** With a bucket's mutex the sweep fills the bucket: calls at it are served. */
  lemma RefillNearer(rates: set<Rate>, s: State, s': State)
    requires Good(rates, s) && s.sweeper.In? && Sweep(s, s')
    ensures Nearer(s, s')
  {
    PendingWoken(s.ws, s.jobs[s.sweeper.i]);
    if SomeServed(s) {
      var j :| 0 <= j < |s.ws| && Served(s, s.ws[j]);
      assert Served(s', s'.ws[j]);
    } else if SomeAwaits(s) {
      var j :| 0 <= j < |s.ws| && Awaits(s, s.ws[j]);
      RefillServes(rates, s, s', j);
    }
  }

  lemma RefillServes(rates: set<Rate>, s: State, s': State, j: nat)
    requires Good(rates, s) && s.sweeper.In? && Sweep(s, s') && j < |s.ws| && Awaits(s, s.ws[j])
    ensures |s'.ws| == |s.ws|
    ensures if s.ws[j].id == s.jobs[s.sweeper.i] then Served(s', s'.ws[j]) else Awaits(s', s'.ws[j])
  {
    assert CallSound(s, s.ws[j]);
  }

  /** Between two buckets the sweep moves on. */
  lemma PassNearer(rates: set<Rate>, s: State, s': State)
    requires Good(rates, s) && s.sweeper.At? && Sweep(s, s')
    ensures Nearer(s, s')
  {
    if SomeServed(s) {
      var j :| 0 <= j < |s.ws| && Served(s, s.ws[j]);
      assert Served(s', s'.ws[j]);
    } else if SomeAwaits(s) {
      var j :| 0 <= j < |s.ws| && Awaits(s, s.ws[j]);
      assert CallSound(s, s.ws[j]);
      assert Awaits(s', s'.ws[j]);
    }
  }

  /** Without any sweep in progress, a call that needs no refill takes its next lock operation. */
  lemma CallNearer(rates: set<Rate>, s: State, k: nat, s': State)
    requires Good(rates, s) && s.sweeper == Rest && k < |s.ws| && Served(s, s.ws[k]) && Continue(s, k, s')
    requires !HoldsMutex(s.ws[k])
    ensures Nearer(s, s')
  {
    assert CallSound(s, s.ws[k]);
    var a := s'.ws[k];
    assert s'.ws == s.ws[k := a];
    PendingUpdate(s.ws, k, a);
    StepsUpdate(s.ws, k, a);
    if !a.Idle? {
      assert Served(s', a);
    }
  }

  /** Only fetches at empty buckets are left: the next sweep begins. */
  lemma StartNearer(rates: set<Rate>, s: State, s': State)
    requires Good(rates, s) && s.sweeper == Rest && !SomeServed(s) && Pending(s.ws) > 0 && Sweep(s, s')
    ensures Nearer(s, s')
  {
    var k := SomePending(s.ws);
    assert CallSound(s, s.ws[k]) && !Served(s, s.ws[k]);
    assert Awaits(s', s'.ws[k]);
  }

  lemma {:induction false} SomePending(ws: seq<Api>) returns (k: nat)
    requires Pending(ws) > 0
    ensures k < |ws| && !ws[k].Idle?
  {
    if !ws[0].Idle? {
      return 0;
    }
    var j := SomePending(ws[1..]);
    k := j + 1;
  }

  lemma {:induction false} NonePending(ws: seq<Api>)
    requires Pending(ws) == 0
    ensures forall k :: 0 <= k < |ws| ==> ws[k].Idle?
  {
    if ws != [] {
      NonePending(ws[1..]);
      assert forall k :: 0 < k < |ws| ==> ws[k] == ws[1..][k - 1];
    }
  }

  predicate Quiet(s: State) {
    s.sweeper == Rest && forall k :: 0 <= k < |s.ws| ==> s.ws[k].Idle?
  }

  /** With positive rates some step of a call in progress or of the refill thread brings completion nearer. */
  lemma StepNearer(rates: set<Rate>, s: State) returns (s': State)
    requires Good(rates, s) && !Quiet(s)
    ensures Acts(s, s') && Nearer(s, s')
  {
    if k: nat :| k < |s.ws| && HoldsMutex(s.ws[k]) {
      s' := GoOn(s, k);
      HolderNearer(rates, s, k, s');
    } else if s.sweeper != Rest {
      s' := SweepOn(s);
      if s.sweeper.In? { RefillNearer(rates, s, s'); } else { PassNearer(rates, s, s'); }
    } else if k: nat :| k < |s.ws| && HoldsTable(s.ws[k]) {
      s' := GoOn(s, k);
      CallNearer(rates, s, k, s');
    } else if k: nat :| k < |s.ws| && Served(s, s.ws[k]) {
      s' := GoOn(s, k);
      CallNearer(rates, s, k, s');
    } else {
      if Pending(s.ws) == 0 { NonePending(s.ws); }
      s' := s.(sweeper := At(0));
      StartNearer(rates, s, s');
    }
  }

  ghost predicate PlainRun(run: seq<State>) {
    |run| > 0 && forall k :: 0 < k < |run| ==> Acts(run[k - 1], run[k])
  }

  /** With positive rates all calls in progress, fetches asleep for tokens included, and the sweep in progress can
  complete, without new calls and without spurious wakeups. */
  lemma {:induction false} CallsComplete(rates: set<Rate>, s: State) returns (run: seq<State>)
    requires Good(rates, s)
    ensures PlainRun(run) && run[0] == s && Quiet(run[|run| - 1])
    decreases Pending(s.ws), Stage(s), SweepSteps(s), Steps(s.ws)
  {
    if Quiet(s) {
      return [s];
    }
    var s' := StepNearer(rates, s);
    ActsKeepInv(s, s');
    ActsKeepTokens(rates, s, s');
    var rest := CallsComplete(rates, s');
    Runs.Prepend(Acts, s, rest);
    run := [s] + rest;
  }

  // ----- a rate of zero, or no burst

  /** A step without a new call. */
  ghost predicate Onward(s: State, s': State) {
    Acts(s, s') || Spurious(s, s')
  }

  ghost predicate OnwardRun(run: seq<State>) {
    |run| > 0 && forall k :: 0 < k < |run| ==> Onward(run[k - 1], run[k])
  }

  /** Some schedule without new calls completes all calls in progress. */
  ghost predicate CanComplete(s: State) {
    exists run: seq<State> :: OnwardRun(run) && run[0] == s && Quiet(run[|run| - 1])
  }

  /** A fetch is alone with an empty bucket that no sweep can fill. */
  ghost predicate Thirsty(s: State, k: nat) {
    && k < |s.ws| && IsFetch(s.ws[k]) && (forall j :: 0 <= j < |s.ws| && j != k ==> s.ws[j].Idle?)
    && var id := s.ws[k].id;
       id in s.live && !Positive(s.live[id].rate) && s.live[id].token == 0
  }

  lemma ThirstyStep(s: State, k: nat, s': State)
    requires Thirsty(s, k) && Onward(s, s')
    ensures Thirsty(s', k)
  {
  }

  lemma {:induction false} ThirstyForever(run: seq<State>, k: nat, j: nat)
    requires OnwardRun(run) && Thirsty(run[0], k) && j < |run|
    ensures Thirsty(run[j], k)
  {
    if j > 0 {
      ThirstyForever(run, k, j - 1);
      ThirstyStep(run[j - 1], k, run[j]);
    }
  }

  lemma ThirstyCannotComplete(s: State, k: nat)
    requires Thirsty(s, k)
    ensures !CanComplete(s)
  {
    forall run: seq<State> | OnwardRun(run) && run[0] == s ensures !Quiet(run[|run| - 1]) {
      ThirstyForever(run, k, |run| - 1);
    }
  }

  /** Some run with this table size and this many threads ends in `s`. */
  ghost predicate Reachable(rates: set<Rate>, slots: nat, threads: nat, s: State) {
    exists run: seq<State> ::
      IsRun(rates, run) && Init(run[0]) && |run[0].jobs| == slots && |run[0].ws| == threads && run[|run| - 1] == s
  }

  lemma ReachNext(rates: set<Rate>, slots: nat, threads: nat, s: State, s': State)
    requires Reachable(rates, slots, threads, s) && Next(rates, s, s')
    ensures Reachable(rates, slots, threads, s')
  {
    var run: seq<State> :|
      IsRun(rates, run) && Init(run[0]) && |run[0].jobs| == slots && |run[0].ws| == threads && run[|run| - 1] == s;
    Runs.Extend((a, b) => Next(rates, a, b), run, s');
    var longer := run + [s'];
    assert IsRun(rates, longer) && longer[0] == run[0] && longer[|longer| - 1] == s';
  }

  /** The first thread's calls on a table with at most the bucket 0 in slot 0. */
  function Alone(slots: nat, threads: nat, published: bool, live: map<int, Bucket>, a: Api): State {
    State(seq(slots, i => if i == 0 && published then 0 else NONE), live,
          seq(threads, k => if k == 0 then a else Idle), Rest)
  }

  /** mytbf_init. */
  lemma Created(rates: set<Rate>, slots: nat, threads: nat, rate: Rate)
    requires slots > 0 && threads > 0 && rate in rates
    ensures Reachable(rates, slots, threads, Alone(slots, threads, true, map[0 := NewBucket(rate)], Idle))
  {
    var live := map[0 := NewBucket(rate)];
    var s0 := Alone(slots, threads, false, map[], Idle);
    var s1, s2 := Alone(slots, threads, false, live, WantInit(0)), Alone(slots, threads, false, live, InInit(0));
    var s3 := Alone(slots, threads, true, live, Idle);
    assert Reachable(rates, slots, threads, s0) by {
      var run := [s0];
      assert IsRun(rates, run) && Init(run[0]) && run[|run| - 1] == s0;
    }
    assert s1.ws == s0.ws[0 := WantInit(0)] && s1.live == s0.live[0 := NewBucket(rate)];
    assert Begin(rates, s0, 0, s1);
    ReachNext(rates, slots, threads, s0, s1);
    assert s2.ws == s1.ws[0 := InInit(0)];
    assert Continue(s1, 0, s2);
    ReachNext(rates, slots, threads, s1, s2);
    PublishFirst(s2, s3);
    ReachNext(rates, slots, threads, s2, s3);
  }

  lemma PublishFirst(s: State, s': State)
    requires |s.jobs| > 0 && s.jobs[0] == NONE && |s.ws| > 0 && s.ws[0] == InInit(0)
    requires 0 in s.live && s.live[0].pos == 0
    requires s' == s.(jobs := s'.jobs, ws := s'.ws) && s'.jobs == s.jobs[0 := 0] && s'.ws == s.ws[0 := Idle]
    ensures Continue(s, 0, s')
  {
    var p: nat := 0;
    assert s.live[0 := s.live[0].(pos := p)] == s.live;
    assert s' == s.(jobs := s.jobs[p := 0], live := s.live[0 := s.live[0].(pos := p)], ws := s.ws[0 := Idle]);
  }

  /** mytbf_fetchToken on a new bucket: asleep. */
  lemma FetchSleeps(rates: set<Rate>, slots: nat, threads: nat, rate: Rate) returns (s: State)
    requires slots > 0 && threads > 0 && rate in rates && !Positive(rate)
    ensures Reachable(rates, slots, threads, s) && Thirsty(s, 0) && s.ws[0].Asleep?
  {
    var live := map[0 := NewBucket(rate)];
    Created(rates, slots, threads, rate);
    var s0, s1 := Alone(slots, threads, true, live, Idle), Alone(slots, threads, true, live, WantFetch(0, 1));
    var s2 := Alone(slots, threads, true, live, InFetch(0, 1));
    s := Alone(slots, threads, true, live, Asleep(0, 1));
    assert s1.ws == s0.ws[0 := WantFetch(0, 1)];
    assert Begin(rates, s0, 0, s1);
    ReachNext(rates, slots, threads, s0, s1);
    assert s2.ws == s1.ws[0 := InFetch(0, 1)];
    assert Continue(s1, 0, s2);
    ReachNext(rates, slots, threads, s1, s2);
    assert s.ws == s2.ws[0 := Asleep(0, 1)];
    assert Continue(s2, 0, s);
    ReachNext(rates, slots, threads, s2, s);
  }

  /** Whatever is called in whatever order on buckets created at the given rates, all calls in progress can complete
  without new ones, exactly when every rate has cps > 0 and burst > 0. */
  lemma CallsCompleteIff(rates: set<Rate>, slots: nat, threads: nat)
    requires slots > 0 && threads > 0
    ensures AllPositive(rates) <==> forall s :: Reachable(rates, slots, threads, s) ==> CanComplete(s)
  {
    if AllPositive(rates) {
      forall s | Reachable(rates, slots, threads, s) ensures CanComplete(s) {
        var run: seq<State> :|
          IsRun(rates, run) && Init(run[0]) && |run[0].jobs| == slots && |run[0].ws| == threads && run[|run| - 1] == s;
        RunKeepsTokens(rates, run, |run| - 1);
        var more := CallsComplete(rates, s);
        assert OnwardRun(more);
      }
    } else {
      var rate :| rate in rates && !Positive(rate);
      var s := FetchSleeps(rates, slots, threads, rate);
      ThirstyCannotComplete(s, 0);
    }
  }
}
