/**
  The queue object.  Each method is one pass through the critical section with the lock
  held; the outcome `MustWait` / `MustSleep` says the wait predicate was false, in which case
  the caller blocks and comes back (the blocking itself is module QueueProtocol).
 */
module BoundedQueue {
  import opened QueueLog

  class ConcurrentQueue<T> {
    const capacity: nat
    const policy: OverflowPolicy
    var items: seq<T>
    var dropped: nat
    var closed: bool

    ghost var accepted: seq<T>
    ghost var taken: seq<Taken>

    ghost function View(): Log<T>
      reads this
    {
      Log(capacity, policy, items, dropped, closed, accepted, taken)
    }

    ghost predicate Valid()
      reads this
    {
      Inv(View())
    }

    constructor (capacity: nat, policy: OverflowPolicy)
      requires capacity >= 1
      ensures Valid() && View() == New(capacity, policy)
    {
      this.capacity, this.policy := capacity, policy;
      items, dropped, closed := [], 0, false;
      accepted, taken := [], [];
    }

    method Push(value: T) returns (outcome: PushOutcome)
      requires Valid()
      modifies this
      ensures Valid()
      ensures (outcome, View()) == QueueLog.Push(old(View()), value)
    {
      PushKeeps(View(), value);
      if policy == BlockWhenFull {
        if !closed && |items| >= capacity {
          return MustWait;
        }
        if closed {
          return Refused;
        }
      } else {
        if |items| >= capacity {
          items := items[1..];
          dropped := dropped + 1;
        }
      }
      items := items + [value];
      accepted := accepted + [value];
      return Accepted;
    }

    /** Hand out the front value. */
    method Take() returns (value: T)
      requires items != []
      modifies this`items, this`taken
      ensures View() == TakeFront(old(View())) && value == old(items)[0]
    {
      value := items[0];
      taken := taken + [Taken(|taken| + dropped, dropped, |accepted|)];
      items := items[1..];
    }

    method Pop() returns (outcome: PopOutcome<T>)
      requires Valid()
      modifies this
      ensures Valid()
      ensures (outcome, View()) == QueueLog.Pop(old(View()))
    {
      PopKeeps(View());
      if !closed && |items| == 0 {
        return MustSleep;
      }
      if |items| == 0 {
        return Drained;
      }
      var value := Take();
      return Got(value);
    }

    method PopLatest() returns (outcome: PopOutcome<T>)
      requires Valid()
      modifies this
      ensures Valid()
      ensures (outcome, View()) == QueueLog.PopLatest(old(View()))
    {
      PopLatestTakesNewest(View());
      if !closed && |items| == 0 {
        return MustSleep;
      }
      if |items| == 0 {
        return Drained;
      }
      while |items| > 1
        invariant items != []
        invariant DropAllBut(View(), 1) == DropAllBut(old(View()), 1)
      {
        assert View().items == items;
        items, dropped := items[1..], dropped + 1;
      }
      var value := Take();
      return Got(value);
    }

    method Close()
      requires Valid()
      modifies this`closed
      ensures Valid()
      ensures View() == QueueLog.Close(old(View()))
    {
      closed := true;
    }

    /** What has been accepted and neither handed out nor dropped. */
    method Size() returns (n: nat)
      requires Valid()
      ensures n <= capacity && n + |taken| + dropped == |accepted|
    {
      n := |items|;
    }

    /** What has been accepted and neither handed out nor queued. */
    method Dropped() returns (n: nat)
      requires Valid()
      ensures n + |taken| + |items| == |accepted|
    {
      n := dropped;
    }
  }
}
