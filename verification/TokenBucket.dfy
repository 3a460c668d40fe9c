/** The token bucket library of thread/posix/mytbf_multithread/mytbf.c: buckets on the heap and the table of buckets
that the refill thread sweeps. Each method is one critical section. Tokens are mathematical
integers; rates and bursts are not negative. */
module TokenBucket {
  import opened Arith

  /** The tokens after `more` have been put into a bucket. */
  function Refilled(token: int, more: nat, burst: nat): int {
    Min(token + more, burst)
  }

  /** What the cap on the bucket cuts off. */
  function Spill(token: int, more: nat, burst: nat): nat {
    token + more - Refilled(token, more, burst)
  }

  /** What a fetch of `size` gets. */
  function Grant(token: int, size: int): int {
    Min(token, size)
  }

  /** What one pass through mytbf_fetchToken does. */
  datatype Fetched = Invalid | MustWait | Granted(n: int)

  class Bucket {
    const cps: nat
    const burst: nat
    var token: int
    var pos: nat

    ghost predicate Valid()
      reads this
    {
      0 <= token <= burst
    }

    constructor (cps: nat, burst: nat)
      ensures Valid() && token == 0 && this.cps == cps && this.burst == burst
    {
      this.cps, this.burst, token, pos := cps, burst, 0, 0;
    }

    /** The body of thr_alarm's loop for one bucket. */
    method Refill()
      requires Valid()
      modifies this`token
      ensures Valid() && token == Min(old(token) + cps, burst) == Refilled(old(token), cps, burst)
    {
      token := token + cps;
      if token > burst {
        token := burst;
      }
    }

    /** mytbf_fetchToken up to the wait or the return. */
    method Fetch(size: int) returns (r: Fetched)
      requires Valid()
      modifies this`token
      ensures Valid()
      ensures r == Invalid <==> size <= 0
      ensures r == MustWait <==> size > 0 && old(token) == 0
      ensures r.Granted? ==> 0 < r.n <= size && token == old(token) - r.n && (r.n == size || token == 0)
      ensures r.Granted? ==> r.n == Grant(old(token), size)
      ensures !r.Granted? ==> token == old(token)
    {
      if size <= 0 {
        return Invalid;
      }
      if token <= 0 {
        return MustWait;
      }
      var n := Min(token, size);
      token := token - n;
      return Granted(n);
    }

    /** mytbf_returnToken. */
    method Return(size: int) returns (ok: bool)
      requires Valid()
      modifies this`token
      ensures Valid() && (ok <==> size > 0)
      ensures token == if ok then Min(old(token) + size, burst) else old(token)
      ensures ok ==> token == Refilled(old(token), size, burst)
    {
      if size <= 0 {
        return false;
      }
      token := token + size;
      if token > burst {
        token := burst;
      }
      return true;
    }
  }

  class BucketTable {
    const jobs: array<Bucket?>

    /** Every bucket in the table knows its slot, so no bucket is in two slots. */
    ghost predicate Valid()
      reads this, jobs, set i | 0 <= i < jobs.Length :: jobs[i]
    {
      forall i :: 0 <= i < jobs.Length && jobs[i] != null ==> jobs[i].pos == i && jobs[i].Valid()
    }

    constructor (size: nat)
      ensures Valid() && jobs.Length == size && fresh(jobs) && forall i :: 0 <= i < size ==> jobs[i] == null
    {
      jobs := new Bucket?[size](_ => null);
    }

    /** mytbf_init: the new bucket takes the first free slot, or there is none and nothing changes. */
    method Init(cps: nat, burst: nat) returns (b: Bucket?)
      requires Valid()
      modifies jobs
      ensures Valid()
      ensures b == null <==> forall i :: 0 <= i < jobs.Length ==> old(jobs[i]) != null
      ensures b == null ==> jobs[..] == old(jobs[..])
      ensures b != null ==>
        && fresh(b) && b.token == 0 && b.cps == cps && b.burst == burst
        && b.pos < jobs.Length && old(jobs[..])[b.pos] == null && null !in old(jobs[..])[..b.pos]
        && jobs[..] == old(jobs[..])[b.pos := b]
    {
      var me := new Bucket(cps, burst);
      var i := 0;
      while i < jobs.Length
        invariant 0 <= i <= jobs.Length && forall k :: 0 <= k < i ==> jobs[k] != null
        invariant jobs[..] == old(jobs[..])
      {
        if jobs[i] == null {
          assert null !in jobs[..][..i];
          me.pos := i;
          jobs[i] := me;
          return me;
        }
        i := i + 1;
      }
      return null;
    }

    /** mytbf_destroy, up to releasing the table: only the bucket's own slot is cleared. */
    method Destroy(b: Bucket)
      requires Valid() && b.pos < jobs.Length && jobs[b.pos] == b
      modifies jobs
      ensures Valid() && jobs[..] == old(jobs[..])[b.pos := null]
      ensures forall i :: 0 <= i < jobs.Length ==> jobs[i] != b
    {
      jobs[b.pos] := null;
    }

    /** One sweep of thr_alarm: every bucket in the table is refilled exactly once. */
    method Sweep()
      requires Valid()
      modifies set i | 0 <= i < jobs.Length :: jobs[i]`token
      ensures Valid()
      ensures forall i :: 0 <= i < jobs.Length && jobs[i] != null ==>
        jobs[i].token == Min(old(jobs[i].token) + jobs[i].cps, jobs[i].burst)
    {
      var i := 0;
      while i < jobs.Length
        invariant 0 <= i <= jobs.Length && Valid()
        invariant forall k :: 0 <= k < i && jobs[k] != null ==>
          jobs[k].token == Min(old(jobs[k].token) + jobs[k].cps, jobs[k].burst)
        invariant forall k :: i <= k < jobs.Length && jobs[k] != null ==> jobs[k].token == old(jobs[k].token)
      {
        if jobs[i] != null {
          jobs[i].Refill();
        }
        i := i + 1;
      }
    }
  }
}
