/** The bounded ring buffer of task handles (kernel/src/sched/mod.rs). */
module ReadyQueue {
  import opened Arithmetic
  import opened Wrappers
  import opened SlotPool

  type TaskHandle = SlotId

  /** The position of the `k`-th queued handle in a buffer of size `n`. */
  function Wrap(head: nat, k: nat, n: nat): (i: nat)
    requires n > 0
    ensures i < n
  {
    (head + k) % n
  }

  /** Within the buffer, wrapping is at most one subtraction. */
  lemma WrapOnce(head: nat, k: nat, n: nat)
    requires head < n && k <= n
    ensures Wrap(head, k, n) == if head + k < n then head + k else head + k - n
  {
    ModWithin(head + k, n);
  }

  class SchedQueue {
    const buf: array<Option<TaskHandle>>
    var head: nat
    var len: nat
    ghost var Contents: seq<TaskHandle>

    ghost predicate Valid()
      reads this, buf
    {
      && len == |Contents| <= buf.Length
      && (buf.Length > 0 ==> head < buf.Length)
      && (forall k :: 0 <= k < len ==> buf[Wrap(head, k, buf.Length)] == Some(Contents[k]))
    }

    constructor (capacity: nat)
      ensures Valid() && fresh(buf) && buf.Length == capacity && Contents == []
    {
      buf := new Option<TaskHandle>[capacity](i => None);
      head, len := 0, 0;
      Contents := [];
    }

    /** Appends at the back, or refuses exactly when the buffer is full. */
    method Enqueue(handle: TaskHandle) returns (r: Result<(), TaskHandle>)
      requires Valid()
      modifies this, buf
      ensures Valid()
      ensures r == if |old(Contents)| == buf.Length then Err(handle) else Ok(())
      ensures Contents == if r.Ok? then old(Contents) + [handle] else old(Contents)
    {
      if len == buf.Length {
        return Err(handle);
      }
      var tail := (head + len) % buf.Length;
      forall k | 0 <= k < len
        ensures Wrap(head, k, buf.Length) != tail
      {
        WrapOnce(head, k, buf.Length);
        WrapOnce(head, len, buf.Length);
      }
      buf[tail] := Some(handle);
      len := len + 1;
      Contents := Contents + [handle];
      return Ok(());
    }

    /** Removes and returns the front handle; `None` exactly when the queue is empty. */
    method Dequeue() returns (r: Option<TaskHandle>)
      requires Valid()
      modifies this, buf
      ensures Valid()
      ensures old(Contents) == [] ==> r == None && Contents == []
      ensures old(Contents) != [] ==> r == Some(old(Contents)[0]) && Contents == old(Contents)[1..]
    {
      if len == 0 {
        return None;
      }
      r := buf[head];
      WrapOnce(head, 0, buf.Length);
      buf[head] := None;
      ghost var front := head;
      head := (head + 1) % buf.Length;
      len := len - 1;
      Contents := Contents[1..];
      forall k | 0 <= k < len
        ensures buf[Wrap(head, k, buf.Length)] == Some(Contents[k])
      {
        WrapOnce(front, 1, buf.Length);
        WrapOnce(head, k, buf.Length);
        WrapOnce(front, k + 1, buf.Length);
        assert Wrap(head, k, buf.Length) == Wrap(front, k + 1, buf.Length);
        assert old(buf[Wrap(front, k + 1, buf.Length)]) == Some(old(Contents)[k + 1]);
      }
    }
  }
}
