/**
 The ring buffer behind one message queue of skynet (skynet_mq.c). The step system of `Scheduler`
 treats a queue as a sequence of messages; here the ring is shown to be one.
 */
module MessageQueue {

  import opened Wrappers

  const DEFAULT_QUEUE_SIZE: nat := 64
  const MQ_OVERLOAD: nat := 1024

  /** The messages between `head` and `tail`, going round the end of the buffer. */
  function Ring<T>(q: seq<T>, head: nat, tail: nat): (s: seq<T>)
    requires head <= |q| && tail <= |q|
    ensures |s| == if head <= tail then tail - head else tail + |q| - head
  {
    if head <= tail then q[head..tail] else q[head..] + q[..tail]
  }

  lemma {:induction false} RingPop<T>(q: seq<T>, head: nat, tail: nat)
    requires head < |q| && tail < |q| && head != tail
    ensures var next := if head + 1 >= |q| then 0 else head + 1;
            Ring(q, head, tail) == [q[head]] + Ring(q, next, tail)
  {
  }

  /** The first of `t`, `2 * t`, `4 * t`, ... that is not below `n`. */
  function Doubled(t: nat, n: nat): (r: nat)
    requires t > 0
    ensures r >= n && r >= t
    decreases n - t
  {
    if n <= t then t else Doubled(2 * t, n)
  }

  class Queue<T(0)> {
    var cap: nat
    var head: nat
    var tail: nat
    var release: bool
    var inGlobal: bool
    var overload: nat
    var overloadThreshold: nat
    var queue: array<T>

    ghost predicate Valid()
      reads this
    {
      cap == queue.Length && head < cap && tail < cap && overloadThreshold >= MQ_OVERLOAD
    }

    ghost function Contents(): seq<T>
      requires Valid()
      reads this, queue
    {
      Ring(queue[..], head, tail)
    }

    constructor ()
      ensures Valid() && fresh(queue) && Contents() == []
      ensures inGlobal && !release
    {
      cap, head, tail := DEFAULT_QUEUE_SIZE, 0, 0;
      inGlobal, release := true, false;
      overload, overloadThreshold := 0, MQ_OVERLOAD;
      queue := new T[DEFAULT_QUEUE_SIZE];
    }

    method Length() returns (n: nat)
      requires Valid()
      ensures n == |Contents()|
    {
      if head <= tail {
        return tail - head;
      }
      return tail + cap - head;
    }

    /** Takes the oldest message; finding none marks the queue as out of the global list. */
    method Pop() returns (m: Option<T>)
      requires Valid()
      modifies this`head, this`inGlobal, this`overload, this`overloadThreshold
      ensures Valid()
      ensures m == if old(Contents()) == [] then None else Some(old(Contents())[0])
      ensures Contents() == if m.None? then [] else old(Contents())[1..]
      ensures inGlobal == (old(inGlobal) && m.Some?)
      ensures m.None? ==> overloadThreshold == MQ_OVERLOAD && overload == old(overload)
      ensures m.Some? ==> overloadThreshold == Doubled(old(overloadThreshold), |Contents()|)
      ensures m.Some? ==> overload == if |Contents()| > old(overloadThreshold) then |Contents()| else old(overload)
    {
      if head != tail {
        RingPop(queue[..], head, tail);
        hide Ring;
        m := Some(queue[head]);
        head := head + 1;
        if head >= cap {
          head := 0;
        }
        var length := tail - head;
        if length < 0 {
          length := length + cap;
        }
        ghost var rest := Contents();
        assert rest == old(Contents())[1..] && length == |rest|;
        while length > overloadThreshold
          invariant overloadThreshold >= old(overloadThreshold) >= MQ_OVERLOAD
          invariant Doubled(overloadThreshold, length) == Doubled(old(overloadThreshold), length)
          invariant overload == if overloadThreshold > old(overloadThreshold) then length else old(overload)
          invariant overloadThreshold > old(overloadThreshold) ==> length > old(overloadThreshold)
          invariant Valid() && Contents() == rest && inGlobal == old(inGlobal)
          decreases length - overloadThreshold
        {
          overload := length;
          overloadThreshold := overloadThreshold * 2;
        }
      } else {
        m := None;
        overloadThreshold := MQ_OVERLOAD;
        inGlobal := false;
      }
    }

    /** Doubles a buffer that has just become full, which `head == tail` then stands for. */
    method ExpandQueue()
      requires Valid() && head == tail
      modifies this`queue, this`head, this`tail, this`cap
      ensures Valid() && fresh(queue)
      ensures Contents() == old(queue[head..] + queue[..head])
      ensures cap == 2 * old(cap) && head == 0 && tail == old(cap)
    {
      var newQueue := new T[cap * 2];
      ghost var full := queue[head..] + queue[..head];
      var i := 0;
      while i < cap
        invariant 0 <= i <= cap
        invariant Valid() && head == old(head) && cap == old(cap)
        invariant fresh(newQueue) && newQueue.Length == 2 * cap
        invariant queue == old(queue) && full == queue[head..] + queue[..head]
        invariant forall k :: 0 <= k < i ==> newQueue[k] == full[k]
      {
        RoundTheEnd(head, i, cap);
        newQueue[i] := queue[(head + i) % cap];
        i := i + 1;
      }
      head := 0;
      tail := cap;
      cap := cap * 2;
      queue := newQueue;
      assert Contents() == full;
    }

    /** Appends a message, growing the buffer instead of ever refusing one. The result says that the
        caller's queue was not in the global list and now has to go there. */
    method Push(m: T) returns (wake: bool)
      requires Valid()
      modifies this`queue, this`head, this`tail, this`cap, this`inGlobal, queue
      ensures Valid() && (queue == old(queue) || fresh(queue))
      ensures Contents() == old(Contents()) + [m]
      ensures wake == !old(inGlobal) && inGlobal
      ensures cap == if |old(Contents())| + 1 == old(cap) then 2 * old(cap) else old(cap)
    {
      ghost var before := Contents();
      queue[tail] := m;
      tail := tail + 1;
      if tail >= cap {
        tail := 0;
      }
      if head == tail {
        assert queue[head..] + queue[..head] == before + [m];
        ExpandQueue();
      } else {
        assert Contents() == before + [m];
      }
      wake := !inGlobal;
      inGlobal := true;
    }
  }

  lemma {:induction false} RoundTheEnd(head: nat, i: nat, cap: nat)
    requires head < cap && i < cap
    ensures (head + i) % cap == if head + i < cap then head + i else head + i - cap
  {
    if head + i >= cap {
      assert (head + i - cap) % cap == head + i - cap;
    }
  }
}
