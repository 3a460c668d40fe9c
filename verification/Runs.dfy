/** Runs of a step relation, joined. */
module Runs {

  /** Each state is followed by one that `next` allows. */
  ghost predicate Chain<S>(next: (S, S) -> bool, run: seq<S>) {
    |run| > 0 && forall k :: 0 < k < |run| ==> next(run[k - 1], run[k])
  }

  lemma Prepend<S>(next: (S, S) -> bool, s: S, rest: seq<S>)
    requires Chain(next, rest) && next(s, rest[0])
    ensures Chain(next, [s] + rest)
  {
    var run := [s] + rest;
    forall k | 0 < k < |run| ensures next(run[k - 1], run[k]) {
      if k > 1 {
        assert next(rest[k - 2], rest[k - 1]);
      }
    }
  }

  lemma Extend<S>(next: (S, S) -> bool, run: seq<S>, s: S)
    requires Chain(next, run) && next(run[|run| - 1], s)
    ensures Chain(next, run + [s])
  {
  }

  /** A run goes on where another one ends. */
  lemma Append<S>(next: (S, S) -> bool, run: seq<S>, more: seq<S>)
    requires Chain(next, run) && Chain(next, more) && more[0] == run[|run| - 1]
    ensures Chain(next, run + more[1..]) && (run + more[1..])[|run| + |more| - 2] == more[|more| - 1]
  {
    var full, n := run + more[1..], |run| - 1;
    forall k | 0 < k < |full| ensures next(full[k - 1], full[k]) {
      if k > n {
        assert full[k - 1] == more[k - 1 - n] && full[k] == more[k - n];
        assert next(more[k - n - 1], more[k - n]);
      } else {
        assert next(run[k - 1], run[k]);
      }
    }
  }
}
