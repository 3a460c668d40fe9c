/** The bounded ring of directory paths in homework/statistic_file_with_thread_pool.c: one array with a front
index, a rear index and a count. Each method is one pass through a critical section. */
module TaskRing {

  /** enqueue_task: wait for room, store, or free the path because the ring is full and `done` is set. */
  datatype Put = MustWait | Stored | Freed

  /** dequeue_task: wait for a path, take one, or return null because the ring is empty and `done` is set. */
  datatype Get<T> = NothingYet | Path(path: T) | NoMore

  /** What enqueue_task does at a queue of `count` paths. */
  function PutOutcome(count: nat, capacity: nat, done: bool): Put {
    if count < capacity then Stored else if done then Freed else MustWait
  }

  /** What dequeue_task does at this queue. */
  function GetOutcome<T>(queue: seq<T>, done: bool): Get<T> {
    if queue != [] then Path(queue[0]) else if done then NoMore else NothingYet
  }

  class Ring<T(0)> {
    const data: array<T>
    var front: nat
    var rear: nat
    var count: nat

    ghost predicate Valid()
      reads this
    {
      && data.Length > 0 && front < data.Length && count <= data.Length
      && rear == Wrap(front + count)
    }

    /** An index of at most one lap past the end, brought back into the array. */
    function Wrap(k: nat): int
    {
      if k < data.Length then k else k - data.Length
    }

    /** The stored paths, oldest first. */
    ghost function Contents(): seq<T>
      requires Valid()
      reads this, data
    {
      seq(count, i requires 0 <= i < count && Valid() reads this, data => data[Wrap(front + i)])
    }

    constructor (capacity: nat)
      requires capacity > 0
      ensures Valid() && data.Length == capacity && Contents() == []
    {
      data := new T[capacity];
      front, rear, count := 0, 0, 0;
    }

    lemma Step(k: nat)
      requires k < data.Length
      ensures (k + 1) % data.Length == Wrap(k + 1)
    {
    }

    method Enqueue(path: T, done: bool) returns (r: Put)
      requires Valid()
      modifies this, data
      ensures Valid()
      ensures r == PutOutcome(|old(Contents())|, data.Length, done)
      ensures r == Stored <==> |old(Contents())| < data.Length
      ensures r == Freed <==> |old(Contents())| == data.Length && done
      ensures Contents() == if r == Stored then old(Contents()) + [path] else old(Contents())
    {
      if count >= data.Length && !done {
        return MustWait;
      }
      if count < data.Length {
        Step(rear);
        ghost var was := Contents();
        data[rear] := path;
        rear := (rear + 1) % data.Length;
        count := count + 1;
        assert forall i :: 0 <= i < |was| ==> Contents()[i] == data[Wrap(front + i)] == was[i];
        assert Contents() == was + [path];
        return Stored;
      }
      return Freed;
    }

    method Dequeue(done: bool) returns (r: Get<T>)
      requires Valid()
      modifies this
      ensures Valid()
      ensures r == GetOutcome(old(Contents()), done)
      ensures r == NothingYet <==> old(Contents()) == [] && !done
      ensures r == NoMore <==> old(Contents()) == [] && done
      ensures if r.Path? then old(Contents()) == [r.path] + Contents() else Contents() == old(Contents())
    {
      if count == 0 && !done {
        return NothingYet;
      }
      if count > 0 {
        Step(front);
        ghost var was := Contents();
        var path := data[front];
        assert was[0] == data[Wrap(front + 0)] == path;
        front := (front + 1) % data.Length;
        count := count - 1;
        assert front == Wrap(old(front) + 1);
        ghost var now := Contents();
        forall i | 0 <= i < |now| ensures now[i] == was[i + 1] {
          assert Wrap(front + i) == Wrap(old(front) + (i + 1));
        }
        assert was == [path] + now;
        return Path(path);
      }
      return NoMore;
    }
  }
}
