/** Any number of clients running the loop of thread/posix/mytbf_multithread/main.c (fetch tokens, read, give back what
was not used, write) against one bucket that a refill thread tops up. The rate, the burst and the buffer size are
parameters; how much read and write transfer is up to the environment. */
module RateLimit {
  import opened CondVar
  import opened Arith
  import opened TokenBucket
  import Runs

  const COND: nat := 0

  datatype Config = Config(cps: nat, burst: nat, bufsize: nat)

  /** A client: asking for tokens (a request for none is refused and ends it), reading with `n` of them, giving `back`
  unused ones back, writing, or gone. */
  datatype Client = Ask | Reading(n: nat) | GiveBack(back: nat, len: nat) | Writing(len: nat) | Gone

  /** `ticks` counts refills; `fetched`, `returned` and `written` sum up the tokens fetched, the tokens given back and
  the bytes written by all clients, `spilled` the tokens cut off at a full bucket and `lost` the tokens of clients that
  left. */
  datatype State = State(token: int, ticks: nat, fetched: nat, returned: nat, written: nat, spilled: nat, lost: nat,
                         ws: seq<Thread<Client>>)

  /** thr_alarm's refill and broadcast. */
  ghost predicate Tick(c: Config, s: State, s': State) {
    && s' == s.(token := Refilled(s.token, c.cps, c.burst), spilled := s.spilled + Spill(s.token, c.cps, c.burst),
                ticks := s.ticks + 1, ws := s'.ws)
    && Broadcast(s.ws, s'.ws, COND)
  }

  /** One critical section, read or write of client `i`; `got` is what read or write returned. */
  ghost predicate ClientStep(c: Config, s: State, i: nat, got: int, s': State)
    requires i < |s.ws|
  {
    && CanRun(s.ws[i])
    && match s.ws[i].at
       case Ask =>
         if c.bufsize == 0 then s' == s.(ws := s.ws[i := Thread(Running, Gone)])
         else if s.token <= 0 then s' == s.(ws := s.ws[i := Thread(Asleep(COND), Ask)])
         else
           var n := Grant(s.token, c.bufsize);
           s' == s.(token := s.token - n, fetched := s.fetched + n, ws := s.ws[i := Thread(Running, Reading(n))])
       case Reading(n) =>
         && got <= n
         && s' == if got <= 0 then s.(lost := s.lost + n, ws := s.ws[i := Thread(Running, Gone)])
                  else s.(ws := s.ws[i := Thread(Running, if got < n then GiveBack(n - got, got) else Writing(got))])
       case GiveBack(back, len) =>
         && s' == s.(token := Refilled(s.token, back, c.burst), spilled := s.spilled + Spill(s.token, back, c.burst),
                     returned := s.returned + back, ws := s'.ws)
         && Broadcast(s.ws[i := Thread(Running, Writing(len))], s'.ws, COND)
       case Writing(len) =>
         && got <= len
         && s' == if got < 0 then s.(lost := s.lost + len, ws := s.ws[i := Thread(Running, Gone)])
                  else s.(written := s.written + got,
                          ws := s.ws[i := Thread(Running, if got == len then Ask else Writing(len - got))])
       case Gone => false
  }

  ghost predicate Next(c: Config, s: State, s': State) {
    || Tick(c, s, s')
    || (exists i: nat, got :: i < |s.ws| && ClientStep(c, s, i, got, s'))
    || (s' == s.(ws := s'.ws) && Wakes(s.ws, s'.ws, COND))
  }

  ghost predicate Init(s: State) {
    && s == State(0, 0, 0, 0, 0, 0, 0, s.ws)
    && forall i :: 0 <= i < |s.ws| ==> s.ws[i] == Thread(Running, Ask)
  }

  ghost predicate IsRun(c: Config, run: seq<State>) {
    |run| > 0 && forall k :: 0 < k < |run| ==> Next(c, run[k - 1], run[k])
  }

  /** Tokens a client holds. */
  function TokensOf(cl: Client): int {
    match cl
    case Reading(n) => n
    case GiveBack(back, len) => back + len
    case Writing(len) => len
    case _ => 0
  }

  function Charged(s: State): int {
    s.fetched - s.returned
  }

  /** The bucket stays within its burst and nobody sleeps while there are tokens. The tokens fetched and not given back
  are the bytes written, the tokens in the clients' hands and those lost with a client; together with the tokens in
  the bucket and those spilled they are all the tokens that the ticks have brought. */
  ghost predicate Inv(c: Config, s: State) {
    && 0 <= s.token <= c.burst
    && (SomeAsleep(s.ws, COND) ==> s.token == 0)
    && s.written + Total(s.ws, TokensOf) + s.lost == Charged(s)
    && s.token + Charged(s) + s.spilled == c.cps * s.ticks
    && forall i :: 0 <= i < |s.ws| ==> s.ws[i].mode.Running? || (s.ws[i].mode.cv == COND && s.ws[i].at.Ask?)
  }

  lemma ClientKeepsInv(c: Config, s: State, i: nat, got: int, s': State)
    requires Inv(c, s) && i < |s.ws| && ClientStep(c, s, i, got, s')
    ensures Inv(c, s') && s'.ticks == s.ticks && s.spilled <= s'.spilled
  {
    if s.ws[i].at.GiveBack? {
      GiveBackKeepsInv(c, s, i, s');
    } else {
      MoveKeepsInv(c, s, i, s'.ws[i], s');
    }
  }

  lemma GiveBackKeepsInv(c: Config, s: State, i: nat, s': State)
    requires Inv(c, s) && i < |s.ws| && s.ws[i].at.GiveBack? && ClientStep(c, s, i, 0, s')
    ensures Inv(c, s') && s.spilled <= s'.spilled
  {
    var t' := Thread(Running, Writing(s.ws[i].at.len));
    TotalUpdate(s.ws, i, t', TokensOf);
    TotalWakes(s.ws[i := t'], s'.ws, COND, TokensOf);
  }

  /** Client `i` goes on as `t`, without waking anybody: it has fetched what left the bucket, and what it writes or
  loses it no longer holds. */
  lemma MoveKeepsInv(c: Config, s: State, i: nat, t: Thread<Client>, s': State)
    requires Inv(c, s) && i < |s.ws|
    requires s' == s.(token := s'.token, fetched := s'.fetched, written := s'.written, lost := s'.lost, ws := s'.ws)
    requires s'.ws == s.ws[i := t] && 0 <= s'.token <= s.token && s'.fetched - s.fetched == s.token - s'.token
    requires t.mode == Running || (t == Thread(Asleep(COND), Ask) && s'.token == 0)
    requires s'.written - s.written + s'.lost - s.lost + TokensOf(t.at) - TokensOf(s.ws[i].at) == s'.fetched - s.fetched
    ensures Inv(c, s')
  {
    TotalUpdate(s.ws, i, t, TokensOf);
    forall k | 0 <= k < |s'.ws| && s'.ws[k].mode == Asleep(COND) ensures s'.token == 0 {
      if k != i { assert s.ws[k].mode == Asleep(COND); }
    }
  }

  lemma TickKeepsInv(c: Config, s: State, s': State)
    requires Inv(c, s) && Tick(c, s, s')
    ensures Inv(c, s') && s.spilled <= s'.spilled
  {
    TotalWakes(s.ws, s'.ws, COND, TokensOf);
    OneTickMore(c.cps, s.ticks);
  }

  lemma OneTickMore(cps: nat, ticks: nat)
    ensures cps * (ticks + 1) == cps * ticks + cps
  {
  }

  lemma SpuriousKeepsInv(c: Config, s: State, s': State)
    requires Inv(c, s) && s' == s.(ws := s'.ws) && Wakes(s.ws, s'.ws, COND)
    ensures Inv(c, s')
  {
    TotalWakes(s.ws, s'.ws, COND, TokensOf);
    if SomeAsleep(s'.ws, COND) {
      var k :| 0 <= k < |s'.ws| && s'.ws[k].mode == Asleep(COND);
      assert s.ws[k].mode == Asleep(COND);
    }
  }

  lemma NextKeepsInv(c: Config, s: State, s': State)
    requires Inv(c, s) && Next(c, s, s')
    ensures Inv(c, s') && s.spilled <= s'.spilled && s.ticks <= s'.ticks
  {
    if Tick(c, s, s') {
      TickKeepsInv(c, s, s');
    } else if i: nat, got :| i < |s.ws| && ClientStep(c, s, i, got, s') {
      ClientKeepsInv(c, s, i, got, s');
    } else {
      SpuriousKeepsInv(c, s, s');
    }
  }

  // ----- no token is made up and none gets lost on the way

  /** Tokens are spilled only at a bucket that is then full. */
  lemma SpillsOnlyWhenFull(c: Config, s: State, s': State)
    requires Inv(c, s) && Next(c, s, s') && s'.spilled > s.spilled
    ensures s'.token == c.burst
  {
  }

  lemma FillNext(start: nat, cps: nat, burst: nat, k: nat)
    requires k > 0 && start <= burst
    ensures Min(Min(start + (k - 1) * cps, burst) + cps, burst) == Min(start + k * cps, burst)
  {
    assert k * cps == (k - 1) * cps + cps;
  }

  /** k ticks in a row bring k * cps tokens, as far as the bucket holds them. */
  lemma {:induction false} TicksFill(c: Config, run: seq<State>, k: nat)
    requires k < |run| && 0 <= run[0].token <= c.burst
    requires forall j :: 0 < j < |run| ==> Tick(c, run[j - 1], run[j])
    ensures run[k].token == if run[0].token + k * c.cps <= c.burst then run[0].token + k * c.cps else c.burst
  {
    if k > 0 {
      TicksFill(c, run, k - 1);
      assert Tick(c, run[k - 1], run[k]);
      FillNext(run[0].token, c.cps, c.burst, k);
    }
  }

  /** A client that asks while there are tokens gets as many as it asks for, or all of them, and nobody else changes. */
  lemma AskGets(c: Config, s: State, i: nat, got: int, s': State)
    requires i < |s.ws| && s.ws[i].at.Ask? && c.bufsize > 0 && s.token > 0 && ClientStep(c, s, i, got, s')
    ensures var n := if s.token < c.bufsize then s.token else c.bufsize;
            && s'.token == s.token - n && s'.fetched == s.fetched + n
            && s'.ws == s.ws[i := Thread(Running, Reading(n))]
  {
  }

  lemma {:induction false} RunKeepsInv(c: Config, run: seq<State>, j: nat)
    requires IsRun(c, run) && Init(run[0]) && j < |run|
    ensures Inv(c, run[j])
  {
    if j == 0 {
      TotalZero(run[0].ws, TokensOf);
    } else {
      RunKeepsInv(c, run, j - 1);
      NextKeepsInv(c, run[j - 1], run[j]);
    }
  }

  /** Between these states the tokens in the bucket and those fetched and not given back grew by at most `cps` a
  tick. */
  ghost predicate GrewAtMost(c: Config, s: State, s': State) {
    s.ticks <= s'.ticks && Charged(s') + s'.token <= Charged(s) + s.token + c.cps * (s'.ticks - s.ticks)
  }

  lemma {:induction false} NeverBack(c: Config, run: seq<State>, i: nat, j: nat)
    requires IsRun(c, run) && Init(run[0]) && i <= j < |run|
    ensures run[i].spilled <= run[j].spilled && run[i].ticks <= run[j].ticks
  {
    if i < j {
      NeverBack(c, run, i, j - 1);
      RunKeepsInv(c, run, j - 1);
      NextKeepsInv(c, run[j - 1], run[j]);
    }
  }

  lemma TicksBetween(cps: nat, a: nat, b: nat)
    requires a <= b
    ensures cps * (b - a) == cps * b - cps * a
  {
  }

  lemma Growth(c: Config, run: seq<State>, i: nat, j: nat)
    requires IsRun(c, run) && Init(run[0]) && i <= j < |run|
    ensures GrewAtMost(c, run[i], run[j])
  {
    NeverBack(c, run, i, j);
    RunKeepsInv(c, run, i);
    RunKeepsInv(c, run, j);
    TicksBetween(c.cps, run[i].ticks, run[j].ticks);
  }

  /** Over every window of every run, with any number of clients, the tokens fetched and not given back grow by at
  most the burst plus the rate times the ticks in the window. */
  lemma WindowBound(c: Config, run: seq<State>, i: nat, j: nat)
    requires IsRun(c, run) && Init(run[0]) && i <= j < |run|
    ensures Charged(run[j]) - Charged(run[i]) <= c.burst + c.cps * (run[j].ticks - run[i].ticks)
  {
    Growth(c, run, i, j);
    RunKeepsInv(c, run, i);
    RunKeepsInv(c, run, j);
  }

  /** From creation on, the tokens fetched and not given back, and with them the bytes written by all clients, never
  exceed the rate times the ticks. */
  lemma WrittenBound(c: Config, run: seq<State>, j: nat)
    requires IsRun(c, run) && Init(run[0]) && j < |run|
    ensures run[j].written <= Charged(run[j]) <= c.cps * run[j].ticks
  {
    Growth(c, run, 0, j);
    RunKeepsInv(c, run, j);
    TotalZero(run[j].ws, TokensOf);
  }

  /** The next step of client `i` gives it a token. */
  predicate ServedNow(c: Config, s: State, i: nat) {
    i < |s.ws| && CanRun(s.ws[i]) && s.ws[i].at.Ask? && Min(s.token, c.bufsize) > 0
  }

  /** Some schedule lets client `i`, which is asking, get a token. */
  ghost predicate CanBeServed(c: Config, s: State, i: nat) {
    exists run: seq<State> :: IsRun(c, run) && run[0] == s && ServedNow(c, run[|run| - 1], i)
  }

  lemma {:induction false} NeverAToken(c: Config, run: seq<State>, j: nat)
    requires IsRun(c, run) && Init(run[0]) && j < |run| && (c.cps == 0 || c.burst == 0)
    ensures run[j].token == 0
  {
    RunKeepsInv(c, run, j);
    Growth(c, run, 0, j);
    TotalZero(run[j].ws, TokensOf);
  }

  /** One tick is enough if rate, burst and request are positive. */
  lemma ServedAfterTick(c: Config, s: State, i: nat)
    requires Inv(c, s) && i < |s.ws| && s.ws[i].at.Ask? && c.cps > 0 && c.burst > 0 && c.bufsize > 0
    ensures CanBeServed(c, s, i)
  {
    var ws' := WakeAll(s.ws, COND);
    var s' := s.(token := Refilled(s.token, c.cps, c.burst), spilled := s.spilled + Spill(s.token, c.cps, c.burst),
                 ticks := s.ticks + 1, ws := ws');
    assert Tick(c, s, s');
    var more := [s, s'];
    assert IsRun(c, more) && ServedNow(c, more[1], i);
    assert more[|more| - 1] == more[1];
  }

  /** An asking client, asleep or not, can be served from a reachable state exactly when rate, burst and request are
  positive; otherwise no client ever gets a token. */
  lemma ServedIff(c: Config, run: seq<State>, i: nat)
    requires IsRun(c, run) && Init(run[0])
    requires i < |run[|run| - 1].ws| && run[|run| - 1].ws[i].at.Ask?
    ensures CanBeServed(c, run[|run| - 1], i) <==> c.cps > 0 && c.burst > 0 && c.bufsize > 0
  {
    var s := run[|run| - 1];
    RunKeepsInv(c, run, |run| - 1);
    if c.cps > 0 && c.burst > 0 && c.bufsize > 0 {
      ServedAfterTick(c, s, i);
    } else if CanBeServed(c, s, i) {
      var more: seq<State> :| IsRun(c, more) && more[0] == s && ServedNow(c, more[|more| - 1], i);
      Runs.Append((a, b) => Next(c, a, b), run, more);
      NeverAToken(c, run + more[1..], |run| + |more| - 2);
    }
  }
}
