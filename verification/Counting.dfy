/** Sums over an initial stretch of the natural numbers, and how many of them have a property. */
module Counting {

  function Sum(n: nat, f: nat -> nat): nat {
    if n == 0 then 0 else Sum(n - 1, f) + f(n - 1)
  }

  /** The numbers below `n` that have the property. */
  function Below(n: nat, p: nat -> bool): set<nat> {
    set i: nat | i < n && p(i)
  }

  lemma Grow(before: set<nat>, n: nat)
    requires n !in before
    ensures |before + {n}| == |before| + 1
  {
  }

  lemma BelowNext(n: nat, p: nat -> bool)
    ensures |Below(n + 1, p)| == |Below(n, p)| + (if p(n) then 1 else 0)
  {
    var before, after := Below(n, p), Below(n + 1, p);
    if p(n) {
      forall i: nat ensures i in after <==> i in before + {n} {
      }
      assert after == before + {n};
      Grow(before, n);
    } else {
      forall i: nat ensures i in after <==> i in before {
      }
      assert after == before;
    }
  }
}
