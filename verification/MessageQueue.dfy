/** The per-service message queue of skynet_mq.c: a ring buffer that doubles when full.
    Every method is what the source does while it holds the queue's lock. */
module RingQueue {
  import opened Prelude

  const DEFAULT_QUEUE_SIZE := 64
  const MQ_OVERLOAD := 1024

  class MessageQueue<M(0)> {
    var queue: array<M>
    var head: nat
    var tail: nat
    var inGlobal: bool
    var overload: nat
    var threshold: nat

    ghost predicate Valid()
      reads this
    {
      head < queue.Length && tail < queue.Length && 0 < threshold
    }

    /** skynet_mq_length: the ring is never full between two operations. */
    function Length(): (n: nat)
      requires Valid()
      reads this
      ensures n < queue.Length
    {
      if head <= tail then tail - head else tail + queue.Length - head
    }

    ghost function Contents(): (s: seq<M>)
      requires Valid()
      reads this, queue
      ensures |s| == Length()
    {
      if head <= tail then queue[head..tail] else queue[head..] + queue[..tail]
    }

    constructor ()
      ensures Valid() && fresh(queue) && Contents() == []
      ensures inGlobal && overload == 0 && threshold == MQ_OVERLOAD
    {
      queue := new M[DEFAULT_QUEUE_SIZE];
      head, tail := 0, 0;
      inGlobal := true;
      overload, threshold := 0, MQ_OVERLOAD;
    }

    /** expand_queue, called when an addition has filled the ring: tail has met head. */
    method ExpandQueue()
      requires Valid() && head == tail
      modifies this`queue, this`head, this`tail
      ensures Valid() && fresh(queue)
      ensures Contents() == old(queue[head..] + queue[..head])
    {
      var cap := queue.Length;
      var newQueue := new M[cap * 2];
      var i := 0;
      while i < cap
        modifies newQueue
        invariant i <= cap && fresh(newQueue) && newQueue.Length == 2 * cap
        invariant forall k | 0 <= k < i :: newQueue[k] == (queue[head..] + queue[..head])[k]
      {
        RingIndex(head, i, cap);
        newQueue[i] := queue[(head + i) % cap];
        i := i + 1;
      }
      assert newQueue[..cap] == queue[head..] + queue[..head];
      head := 0;
      tail := cap;
      queue := newQueue;
    }

    /** The ring half of skynet_mq_push. */
    method Append(m: M)
      requires Valid()
      modifies this`queue, this`head, this`tail, queue
      ensures Valid() && (queue == old(queue) || fresh(queue))
      ensures Contents() == old(Contents()) + [m]
    {
      queue[tail] := m;
      tail := tail + 1;
      if tail >= queue.Length {
        tail := 0;
      }
      if head == tail {
        ExpandQueue();
      }
    }

    /** skynet_mq_push; `listed` says that the queue was put on the global list. */
    method Push(m: M) returns (listed: bool)
      requires Valid()
      modifies this, queue
      ensures Valid() && (queue == old(queue) || fresh(queue))
      ensures Contents() == old(Contents()) + [m]
      ensures listed == !old(inGlobal) && inGlobal
      ensures overload == old(overload) && threshold == old(threshold)
    {
      Append(m);
      listed := false;
      if !inGlobal {
        inGlobal := true;
        listed := true;
      }
    }

    /** skynet_mq_pop.  Finding the queue empty clears in_global. */
    method Pop() returns (message: Option<M>)
      requires Valid()
      modifies this
      ensures Valid() && queue == old(queue)
      ensures old(Contents()) == [] ==>
                message == None && Contents() == [] && !inGlobal && threshold == MQ_OVERLOAD && overload == old(overload)
      ensures old(Contents()) != [] ==>
                && message == Some(old(Contents())[0]) && Contents() == old(Contents())[1..] && inGlobal == old(inGlobal)
                && overload == (if |Contents()| > old(threshold) then |Contents()| else old(overload))
                && threshold == RaisedThreshold(old(threshold), |Contents()|)
    {
      if head != tail {
        message := Some(queue[head]);
        head := head + 1;
        if head >= queue.Length {
          head := 0;
        }
        var length := tail - head;
        if length < 0 {
          length := length + queue.Length;
        }
        NoteLength(length);
      } else {
        threshold := MQ_OVERLOAD;
        message := None;
        inGlobal := false;
      }
    }

    /** The overload loop of skynet_mq_pop. */
    method NoteLength(length: nat)
      requires 0 < threshold
      modifies this`overload, this`threshold
      ensures overload == if length > old(threshold) then length else old(overload)
      ensures threshold == RaisedThreshold(old(threshold), length)
    {
      while length > threshold
        invariant old(threshold) <= threshold && RaisedThreshold(threshold, length) == RaisedThreshold(old(threshold), length)
        invariant overload == if threshold > old(threshold) then length else old(overload)
        invariant length <= old(threshold) ==> threshold == old(threshold)
        decreases length - threshold
      {
        overload := length;
        threshold := threshold * 2;
      }
    }

    /** skynet_mq_overload: report an overload once. */
    method TakeOverload() returns (length: nat)
      modifies this`overload
      ensures length == old(overload) && overload == 0
    {
      length := 0;
      if overload != 0 {
        length := overload;
        overload := 0;
      }
    }
  }

  lemma RingIndex(head: nat, i: nat, cap: nat)
    requires head < cap && i < cap
    ensures (head + i) % cap == if head + i < cap then head + i else head + i - cap
  {
    if head + i >= cap {
      assert (head + i) % cap == (head + i - cap) % cap by {
        ModStep(head + i - cap, cap);
      }
    }
  }

  /** The overload threshold after doubling until it is no longer exceeded. */
  function RaisedThreshold(threshold: nat, length: nat): (r: nat)
    requires 0 < threshold
    ensures threshold <= r && length <= r
    ensures r != threshold ==> r < 2 * length
    decreases length - threshold
  {
    if length > threshold then RaisedThreshold(threshold * 2, length) else threshold
  }
}
