/** The bounded queue between the job builder and the ASIC task (main/work_queue.c).

    A job pointer is null or refers to a job; a job's serial stands for its address. */
module WorkQueue {
  const QUEUE_SIZE: nat := 12

  datatype Job = Job(serial: nat, pool: nat)

  datatype Pointer = Null | To(job: Job)

  /** What clearing a pool keeps of a queue, in order. */
  function Kept(s: seq<Pointer>, pool: nat): (r: seq<Pointer>)
    ensures |r| <= |s|
  {
    if s == [] then []
    else
      var last := s[|s| - 1];
      Kept(s[..|s| - 1], pool) + if last.To? && last.job.pool != pool then [last] else []
  }

  /** The jobs of a queue, in order. */
  function Jobs(s: seq<Pointer>): seq<Job> {
    if s == [] then []
    else
      var last := s[|s| - 1];
      Jobs(s[..|s| - 1]) + if last.To? then [last.job] else []
  }

  /** The jobs of one pool, in order: what clearing it frees. */
  function Of(s: seq<Pointer>, pool: nat): seq<Job> {
    if s == [] then []
    else
      var last := s[|s| - 1];
      Of(s[..|s| - 1], pool) + if last.To? && last.job.pool == pool then [last.job] else []
  }

  class WorkQueue {
    const buffer: array<Pointer>
    var head: nat
    var tail: nat
    var count: nat

    ghost predicate Valid()
      reads this
    {
      && buffer.Length == QUEUE_SIZE
      && head < QUEUE_SIZE && count <= QUEUE_SIZE
      && tail == (head + count) % QUEUE_SIZE
    }

    /** What is queued, the next first. */
    ghost function Contents(): (s: seq<Pointer>)
      reads this, buffer
      requires Valid()
      ensures |s| == count
    {
      seq(count, i requires 0 <= i < count && Valid() reads this, buffer => buffer[(head + i) % QUEUE_SIZE])
    }

    constructor ()
      ensures Valid() && Contents() == [] && fresh(buffer)
    {
      buffer := new Pointer[QUEUE_SIZE](_ => Null);
      head, tail, count := 0, 0, 0;
    }

    /** Counting places from the next head is counting one more from this one. */
    static lemma NextPlace(first: nat, i: nat, next: nat)
      requires first < QUEUE_SIZE && next == i + 1 <= QUEUE_SIZE
      ensures ((first + 1) % QUEUE_SIZE + i) % QUEUE_SIZE == (first + next) % QUEUE_SIZE
    {}

    /** Enters at the tail.  A caller meeting a full queue waits until it is not. */
    method Enqueue(work: Pointer)
      requires Valid() && count < QUEUE_SIZE
      modifies this, buffer
      ensures Valid() && Contents() == old(Contents()) + [work]
    {
      buffer[tail] := work;
      tail := (tail + 1) % QUEUE_SIZE;
      count := count + 1;
    }

    /** Leaves at the head.  A caller meeting an empty queue waits until it is not. */
    method Dequeue() returns (work: Pointer)
      requires Valid() && count > 0
      modifies this
      ensures Valid() && old(Contents()) == [work] + Contents()
    {
      ghost var was, first := Contents(), head;
      work := buffer[head];
      head := (head + 1) % QUEUE_SIZE;
      count := count - 1;
      forall i | 0 <= i < count ensures Contents()[i] == was[i + 1] {
        NextPlace(first, i, i + 1);
      }
    }

    /** As `Dequeue`, but gives up on a queue that is still empty when the time is up. */
    method DequeueTimeout() returns (work: Pointer)
      requires Valid()
      modifies this
      ensures Valid()
      ensures if old(Contents()) == [] then work == Null && Contents() == []
              else old(Contents()) == [work] + Contents()
    {
      if count == 0 {
        return Null;
      }
      work := Dequeue();
    }

    /** Frees every job. */
    method Clear() returns (freed: seq<Job>)
      requires Valid() && Null !in Contents()
      modifies this
      ensures Valid() && Contents() == [] && freed == Jobs(old(Contents()))
    {
      ghost var was := Contents();
      ghost var n := 0;
      freed := [];
      while count > 0
        invariant Valid() && n + count == |was| && Contents() == was[n..]
        invariant freed == Jobs(was[..n])
        decreases count
      {
        var next := Dequeue();
        assert was[..n + 1][..n] == was[..n] && next == was[n];
        freed := freed + [next.job];
        n := n + 1;
      }
      assert was[..n] == was;
    }

    /** Frees the jobs of one pool and keeps the others in order. */
    method ClearPool(pool: nat) returns (freed: seq<Job>)
      requires Valid()
      modifies this, buffer
      ensures Valid() && Contents() == Kept(old(Contents()), pool)
      ensures freed == Of(old(Contents()), pool)
    {
      ghost var was := Contents();
      var keep;
      keep, freed := Drain(pool);
      head, tail := 0, 0;
      for i := 0 to |keep|
        invariant Valid() && count == i && Contents() == keep[..i]
      {
        Enqueue(keep[i]);
      }
    }

    /** Empties the queue, telling what to keep from what it frees. */
    method Drain(pool: nat) returns (keep: seq<Pointer>, freed: seq<Job>)
      requires Valid()
      modifies this
      ensures Valid() && count == 0
      ensures keep == Kept(old(Contents()), pool) && freed == Of(old(Contents()), pool)
    {
      ghost var was := Contents();
      ghost var n := 0;
      keep, freed := [], [];
      while count > 0
        invariant Valid() && n + count == |was| && Contents() == was[n..]
        invariant keep == Kept(was[..n], pool) && freed == Of(was[..n], pool)
        decreases count
      {
        var next := Dequeue();
        assert was[..n + 1][..n] == was[..n] && next == was[n];
        if next.To? && next.job.pool != pool {
          keep := keep + [next];
        } else if next.To? {
          freed := freed + [next.job];
        }
        n := n + 1;
      }
      assert was[..n] == was;
    }
  }

  /** Clearing a pool removes that pool's jobs and leaves every other pool's, in order. */
  lemma {:induction false} KeptIs(s: seq<Pointer>, pool: nat, other: nat)
    ensures Of(Kept(s, pool), other) == if other == pool then [] else Of(s, other)
    ensures Null !in Kept(s, pool)
  {
    if s != [] {
      var before, last := s[..|s| - 1], s[|s| - 1];
      KeptIs(before, pool, other);
      if last.To? && last.job.pool != pool {
        assert Kept(s, pool)[..|Kept(s, pool)| - 1] == Kept(before, pool);
      } else {
        assert Kept(s, pool) == Kept(before, pool);
      }
    }
  }
}
