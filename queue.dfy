/** `blocking_queue<T>`: the mailbox between threads. The mutex only serialises the calls,
    so each call is modelled as one atomic step on a sequence, front first. */
module Queues {

  class BlockingQueue<T> {
    /** The queued values, front first. */
    var data: seq<T>
    /** How many values were ever pushed, and how many were ever popped. */
    ghost var pushes: nat
    ghost var pops: nat

    ghost predicate Valid()
      reads this
    {
      pops + |data| == pushes
    }

    constructor ()
      ensures Valid() && data == [] && pushes == 0 && pops == 0
    {
      data, pushes, pops := [], 0, 0;
    }

    /** `push`: appends at the back. */
    method Push(x: T)
      requires Valid()
      modifies this
      ensures Valid()
      ensures data == old(data) + [x]
      ensures pushes == old(pushes) + 1 && pops == old(pops)
    {
      data := data + [x];
      pushes := pushes + 1;
    }

    /** `pop(value)`: on an empty queue reports false and leaves both the queue and the
        caller's variable (passed in as `current`) alone; otherwise hands out the front. */
    method Pop(current: T) returns (ok: bool, value: T)
      requires Valid()
      modifies this
      ensures Valid() && pushes == old(pushes)
      ensures ok == (old(data) != [])
      ensures ok ==> value == old(data)[0] && data == old(data)[1..] && pops == old(pops) + 1
      ensures !ok ==> value == current && data == old(data) && pops == old(pops)
    {
      if data == [] {
        return false, current;
      }
      ok, value := true, data[0];
      data := data[1..];
      pops := pops + 1;
    }

    /** `size`: the number of pushes not yet matched by a successful pop. */
    method Size() returns (n: int)
      requires Valid()
      ensures n == |data| && n == pushes - pops
    {
      n := |data|;
    }
  }

  /** FIFO order: on an empty queue, pushing `a` then `b` and popping twice yields `a` then
      `b` and leaves the queue empty again. */
  method PushTwicePopTwice<T>(q: BlockingQueue<T>, a: T, b: T, current: T) returns (x: T, y: T)
    requires q.Valid() && q.data == []
    modifies q
    ensures x == a && y == b
    ensures q.Valid() && q.data == []
  {
    q.Push(a);
    q.Push(b);
    var ok1, ok2;
    ok1, x := q.Pop(current);
    ok2, y := q.Pop(x);
  }
}
