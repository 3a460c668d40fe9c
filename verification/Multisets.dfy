/** Sums of multisets, rearranged. */
module Multisets {

  lemma AddLeft<T>(h: multiset<T>, a: multiset<T>, b: multiset<T>, c: multiset<T>, d: multiset<T>)
    requires a + b == c + d
    ensures (h + a) + b == (h + c) + d
  {
    assert (h + a) + b == h + (a + b);
    assert (h + c) + d == h + (c + d);
  }

  lemma SwapLast<T>(a: multiset<T>, b: multiset<T>, c: multiset<T>)
    ensures (a + b) + c == (a + c) + b == (c + b) + a
  {
  }

  lemma DropEmpty<T>(a: multiset<T>, b: multiset<T>)
    requires a + multiset{} == b + multiset{}
    ensures a == b
  {
    assert a == a + multiset{};
    assert b == b + multiset{};
  }

  /** An item moves from the pending side to the settled side. */
  lemma Settle<T>(settled: multiset<T>, before: multiset<T>, after: multiset<T>, v: multiset<T>)
    requires after + v == before + multiset{}
    ensures (settled + v) + after == settled + before
  {
    assert (settled + v) + after == settled + (after + v);
  }

  /** An item joins the pending side. */
  lemma Accrue<T>(settled: multiset<T>, before: multiset<T>, after: multiset<T>, v: multiset<T>)
    requires after + multiset{} == before + v
    ensures settled + after == (settled + before) + v
  {
    assert settled + after == settled + (before + v);
  }
}
