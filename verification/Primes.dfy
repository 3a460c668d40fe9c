/** The prime scans: trial division up to n/2 (thread/posix/primer_pool_busy.c,
thread/posix/mytbf_multithread/primer_pool_notice.c) and odd trial division up to the square root over ranges
(thread/posix/Newer/primer_by_one.c, primer_by_four.c). Files become sequences of numbers; numbers are
mathematical integers. */
module Primes {
  import opened Arith

  predicate Divides(d: int, n: int) {
    d != 0 && n % d == 0
  }

  predicate Prime(n: int) {
    n >= 2 && forall d :: 2 <= d < n ==> !Divides(d, n)
  }

  /** The primes of `[left, right]` in ascending order: what every scan is for. */
  function PrimesIn(left: int, right: int): seq<int>
    decreases right - left
  {
    if right < left then []
    else PrimesIn(left, right - 1) + (if Prime(right) then [right] else [])
  }

  // ----- arithmetic of divisors

  lemma DivisorSplits(n: int, d: int)
    requires n > 0 && 2 <= d < n && n % d == 0
    ensures n == d * (n / d) && 2 <= n / d < n && n % (n / d) == 0
  {
    var e := n / d;
    assert n == d * e;
    assert 2 <= e;
    assert 2 * e <= d * e by { MulMonotone(2, e, d, e); }
    MultipleMod(d, e);
  }

  lemma DivisorAtMostHalf(n: int, d: int)
    requires n > 0 && 2 <= d < n && n % d == 0
    ensures d <= n / 2
  {
    DivisorSplits(n, d);
    MulMonotone(d, 2, d, n / d);
  }

  lemma EvenMultiple(d: int, q: int)
    requires d % 2 == 0
    ensures (d * q) % 2 == 0
  {
    var h := d / 2;
    assert d * q == 2 * (h * q);
  }

  lemma OddDivisor(n: int, d: int)
    requires n > 0 && n % 2 == 1 && d > 0 && n % d == 0
    ensures d % 2 == 1
  {
    var q := n / d;
    assert n == d * q;
    if d % 2 == 0 { EvenMultiple(d, q); }
  }

  /** A divisor of an odd number, or its cofactor, is odd and below any bound whose square exceeds the number. */
  lemma SmallCofactor(n: int, d: int, bound: int) returns (e: int)
    requires n % 2 == 1 && 2 <= d < n && Divides(d, n) && bound >= 0 && bound * bound > n
    ensures 3 <= e < bound && e % 2 == 1 && Divides(e, n)
  {
    DivisorSplits(n, d);
    OddDivisor(n, d);
    OddDivisor(n, n / d);
    if d < bound {
      e := d;
    } else {
      e := n / d;
      if e >= bound {
        MulMonotone(bound, bound, d, e);
      }
    }
  }

  /** An odd number with no odd divisor below a bound whose square exceeds it is prime. */
  lemma NoSmallOddDivisor(n: int, bound: int)
    requires n > 1 && n % 2 == 1 && bound >= 3 && bound * bound > n
    requires forall d :: 3 <= d < bound && d % 2 == 1 ==> !Divides(d, n)
    ensures Prime(n)
  {
    forall d | 2 <= d < n ensures !Divides(d, n) {
      if Divides(d, n) {
        var e := SmallCofactor(n, d, bound);
      }
    }
  }

  // ----- the two primality tests

  /** The pool workers' test. It reports exactly the primes for every value from 2 on, and also 1. */
  method HalfTest(i: int) returns (mark: bool)
    requires i >= 1
    ensures mark <==> Prime(i) || i == 1
  {
    mark := true;
    var j := 2;
    while j <= i / 2
      invariant mark && 2 <= j
      invariant forall d :: 2 <= d < j && d < i ==> !Divides(d, i)
      decreases i - j
    {
      if i % j == 0 {
        assert Divides(j, i);
        mark := false;
        return;
      }
      j := j + 1;
    }
    forall d | 2 <= d < i ensures !Divides(d, i) {
      if Divides(d, i) { DivisorAtMostHalf(i, d); }
    }
  }

  ghost predicate NoOddDivisorBelow(i: int, j: int) {
    forall d :: 3 <= d < i && d % 2 == 1 ==> !Divides(d, j)
  }

  lemma NextOdd(i: int, j: int)
    requires i % 2 == 1 && NoOddDivisorBelow(i, j) && !Divides(i, j)
    ensures NoOddDivisorBelow(i + 2, j)
  {
    assert (i + 1) % 2 == 0;
  }

  /** The range scans' test, for the odd candidates they try. */
  method OddTest(j: int) returns (isPrimer: bool)
    requires j >= 1 && j % 2 == 1
    ensures isPrimer <==> Prime(j) || j == 1
  {
    isPrimer := true;
    var i := 3;
    while i * i <= j
      invariant isPrimer && i >= 3 && i % 2 == 1
      invariant NoOddDivisorBelow(i, j)
      decreases j - i
    {
      MulMonotone(3, i, i, i);
      if j % i == 0 {
        assert Divides(i, j);
        isPrimer := false;
        return;
      }
      NextOdd(i, j);
      i := i + 2;
    }
    if j > 1 { NoSmallOddDivisor(j, i); }
  }

  // ----- scanning ranges

  lemma {:induction false} PrimesInMembers(left: int, right: int)
    ensures forall p :: p in PrimesIn(left, right) <==> left <= p <= right && Prime(p)
    decreases right - left
  {
    if right >= left {
      PrimesInMembers(left, right - 1);
    }
  }

  /** Ascending order: together with the members this fixes the list. */
  lemma {:induction false} PrimesInAscending(left: int, right: int)
    ensures forall a, b :: 0 <= a < b < |PrimesIn(left, right)| ==> PrimesIn(left, right)[a] < PrimesIn(left, right)[b]
    decreases right - left
  {
    if right >= left {
      PrimesInAscending(left, right - 1);
      PrimesInMembers(left, right - 1);
      var before := PrimesIn(left, right - 1);
      assert forall a :: 0 <= a < |before| ==> before[a] in before;
    }
  }

  lemma EvenNotPrime(n: int)
    requires n > 2 && n % 2 == 0
    ensures !Prime(n)
  {
    assert Divides(2, n);
  }

  /** What has been scanned once every candidate below `j` is done. */
  function ScannedTo(j: nat, right: nat): int {
    if j <= right then j - 1 else right
  }

  /** Trying the odd candidate `j` and stepping over the even one after it. */
  lemma ScanStep(left: nat, j: nat, right: nat)
    requires 3 <= j <= right && j % 2 == 1 && left <= j
    ensures PrimesIn(left, ScannedTo(j + 2, right)) == PrimesIn(left, j - 1) + (if Prime(j) then [j] else [])
  {
    EvenNotPrime(j + 1);
  }

  /** What the scan holds before its first odd candidate: the prime 2 if the range starts with it. */
  lemma ScanStart(left0: nat, right: nat)
    requires left0 >= 2
    ensures var left := if left0 % 2 == 0 then left0 + 1 else left0;
            PrimesIn(left0, ScannedTo(left, right)) == if left0 <= 2 <= right then [2] else []
  {
    assert PrimesIn(left0, left0 - 1) == [];
    if left0 == 2 {
      assert PrimesIn(2, 2) == PrimesIn(2, 1) + [2];
    } else if left0 % 2 == 0 {
      EvenNotPrime(left0);
    }
  }

  function Two(right: nat): seq<int> {
    if right >= 2 then [2] else []
  }

  /** What the file holds when the candidate `j` is next. */
  function HeldAt(left0: nat, j: nat, right: nat): seq<int> {
    if left0 >= 2 then PrimesIn(left0, ScannedTo(j, right))
    else if j == 1 then Two(right)
    else Two(right) + [1] + PrimesIn(3, ScannedTo(j, right))
  }

  lemma HeldStart(left0: nat, left: nat, right: nat)
    requires left == if left0 % 2 == 0 then left0 + 1 else left0
    ensures HeldAt(left0, left, right) == if left0 <= 2 <= right then [2] else []
  {
    if left0 >= 2 { ScanStart(left0, right); }
  }

  lemma HeldStep(left0: nat, j: nat, right: nat)
    requires j % 2 == 1 && left0 <= j <= right
    ensures HeldAt(left0, j + 2, right) == HeldAt(left0, j, right) + (if Prime(j) || j == 1 then [j] else [])
  {
    if j >= 3 {
      ScanStep(if left0 >= 2 then left0 else 3, j, right);
    } else {
      assert PrimesIn(3, ScannedTo(3, right)) == [];
    }
  }

  /** The file holds the primes of the range unless 1 is among its numbers. */
  lemma HeldEnd(left0: nat, j: nat, right: nat)
    requires right < j && (left0 < 2 && right < 1 ==> j == 1)
    ensures HeldAt(left0, j, right) == PrimesIn(left0, right) <==> left0 >= 2 || right < 1
    ensures left0 < 2 && right >= 1 ==> HeldAt(left0, j, right) == Two(right) + [1] + PrimesIn(3, right)
  {
    PrimesInMembers(left0, right);
    if left0 < 2 && right >= 1 {
      assert 1 in HeldAt(left0, j, right) && !Prime(1);
    } else if left0 < 2 {
      assert PrimesIn(left0, right) == [];
    }
  }

  /** The body of the scan's loop. */
  method TryCandidate(ghost left0: nat, j: nat, ghost right: nat, held: seq<int>) returns (out: seq<int>)
    requires j % 2 == 1 && left0 <= j <= right && held == HeldAt(left0, j, right)
    ensures out == HeldAt(left0, j + 2, right)
  {
    var isPrimer := OddTest(j);
    out := if isPrimer then held + [j] else held;
    HeldStep(left0, j, right);
  }

  /** The scan's loop over the odd candidates from `left` on. */
  method ScanOdds(ghost left0: nat, left: nat, right: nat, held: seq<int>) returns (out: seq<int>, ghost j: nat)
    requires left % 2 == 1 && left0 <= left && held == HeldAt(left0, left, right)
    ensures right < j && (j == left || left <= right) && out == HeldAt(left0, j, right)
  {
    out := held;
    var k := left;
    while k <= right
      invariant k % 2 == 1 && left <= k && (k == left || left <= right)
      invariant out == HeldAt(left0, k, right)
    {
      out := TryCandidate(left0, k, right, out);
      k := k + 2;
    }
    j := k;
  }

  /** primer_by_four.c's scan of one range. The file holds exactly the primes of the range, in order, unless the
  range starts below 2 and contains 1: then, and only then, it also lists 1, after the 2. */
  method ScanRange(left0: nat, right: nat) returns (out: seq<int>)
    ensures out == PrimesIn(left0, right) <==> left0 >= 2 || right < 1
    ensures left0 < 2 && right >= 1 ==> out == Two(right) + [1] + PrimesIn(3, right)
  {
    var left := left0;
    out := [];
    if left <= 2 && right >= 2 {
      out := out + [2];
    }
    if left % 2 == 0 {
      left := left + 1;
    }
    HeldStart(left0, left, right);
    ghost var j: nat;
    out, j := ScanOdds(left0, left, right, out);
    HeldEnd(left0, j, right);
  }

  /** primer_by_one.c: the single-range reference. */
  method ScanFromTwo(n: nat) returns (out: seq<int>)
    ensures out == PrimesIn(2, n)
  {
    out := [];
    if n >= 2 {
      out := out + [2];
    }
    ScanStart(2, n);
    var j := 3;
    while j <= n
      invariant j % 2 == 1 && 3 <= j
      invariant out == PrimesIn(2, ScannedTo(j, n))
    {
      var isPrimer := OddTest(j);
      if isPrimer {
        out := out + [j];
      }
      ScanStep(2, j, n);
      j := j + 2;
    }
  }

  // ----- partitioned ranges

  lemma {:induction false} PrimesInSplit(a: int, b: int, c: int)
    requires a <= b + 1 && b <= c
    ensures PrimesIn(a, c) == PrimesIn(a, b) + PrimesIn(b + 1, c)
    decreases c - b
  {
    if c > b {
      PrimesInSplit(a, b, c - 1);
    }
  }

  datatype Range = Range(left: nat, right: nat)

  /** Each range starts right after the one before it. */
  predicate Adjacent(table: seq<Range>) {
    && (forall k :: 0 <= k < |table| ==> table[k].left <= table[k].right + 1)
    && forall k :: 0 < k < |table| ==> table[k].left == table[k - 1].right + 1
  }

  function Concat(files: seq<seq<int>>): seq<int> {
    if files == [] then [] else files[0] + Concat(files[1..])
  }

  /** One worker per range, each writing its own file; the order in which they run is irrelevant. */
  method ScanTable(table: seq<Range>) returns (files: seq<seq<int>>)
    requires forall k :: 0 <= k < |table| ==> table[k].left >= 2
    ensures |files| == |table|
    ensures forall k :: 0 <= k < |table| ==> files[k] == PrimesIn(table[k].left, table[k].right)
  {
    files := [];
    for i := 0 to |table|
      invariant |files| == i
      invariant forall k :: 0 <= k < i ==> files[k] == PrimesIn(table[k].left, table[k].right)
    {
      var out := ScanRange(table[i].left, table[i].right);
      files := files + [out];
    }
  }

  /** Concatenating the files of adjacent ranges gives the list of the whole range. */
  lemma {:induction false} PartitionedScan(table: seq<Range>, files: seq<seq<int>>)
    requires |table| == |files| > 0 && Adjacent(table)
    requires forall k :: 0 <= k < |table| ==> files[k] == PrimesIn(table[k].left, table[k].right)
    ensures Concat(files) == PrimesIn(table[0].left, table[|table| - 1].right)
  {
    if |table| == 1 {
      assert files[1..] == [];
    } else {
      var rest := table[1..];
      assert forall k :: 0 <= k < |rest| ==> rest[k] == table[k + 1];
      assert forall k :: 0 < k < |rest| ==> rest[k].left == rest[k - 1].right + 1;
      PartitionedScan(rest, files[1..]);
      LastRight(table);
      PrimesInSplit(table[0].left, table[0].right, table[|table| - 1].right);
    }
  }

  lemma {:induction false} LastRight(table: seq<Range>)
    requires |table| > 0 && Adjacent(table)
    ensures table[0].right <= table[|table| - 1].right
  {
    if |table| > 1 {
      assert forall k :: 0 < k < |table[..|table| - 1]| ==> table[k].left == table[k - 1].right + 1;
      LastRight(table[..|table| - 1]);
    }
  }

  /** The table of primer_by_four.c starts at 3, so its merged file is the reference list without the 2. */
  lemma TableFromThree(table: seq<Range>, files: seq<seq<int>>)
    requires |table| == |files| > 0 && Adjacent(table) && table[0].left == 3
    requires forall k :: 0 <= k < |table| ==> files[k] == PrimesIn(table[k].left, table[k].right)
    ensures [2] + Concat(files) == PrimesIn(2, table[|table| - 1].right)
  {
    PartitionedScan(table, files);
    LastRight(table);
    PrimesInSplit(2, 2, table[|table| - 1].right);
    assert PrimesIn(2, 2) == PrimesIn(2, 1) + [2];
  }
}
