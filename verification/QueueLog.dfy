/**
  The bounded queue as a value: what one critical section of `ConcurrentQueue` does,
  together with the two streams an outside observer can see, the values accepted and
  the values handed out.  The class, the wait/notify protocol, the pipeline and the
  alert publisher are all stated over these functions.
 */
module QueueLog {
  import opened Arithmetic

  datatype OverflowPolicy = BlockWhenFull | DropOldestWhenFull

  /** One hand-out: which accepted value it was, and both counters right after it. */
  datatype Taken = Taken(index: nat, dropped: nat, accepted: nat)

  datatype Log<T> = Log(
    capacity: nat,
    policy: OverflowPolicy,
    items: seq<T>,
    dropped: nat,
    closed: bool,
    accepted: seq<T>,
    taken: seq<Taken>)

  /** `MustWait` is the wait predicate being false: the caller sleeps, nothing changes. */
  datatype PushOutcome = Accepted | Refused | MustWait
  datatype PopOutcome<+T> = Got(value: T) | Drained | MustSleep

  function New<T>(capacity: nat, policy: OverflowPolicy): Log<T> {
    Log(capacity, policy, [], 0, false, [], [])
  }

  function Append<T>(q: Log<T>, v: T): Log<T> {
    q.(items := q.items + [v], accepted := q.accepted + [v])
  }

  function DropFront<T>(q: Log<T>): Log<T>
    requires q.items != []
  {
    q.(items := q.items[1..], dropped := q.dropped + 1)
  }

  function TakeFront<T>(q: Log<T>): Log<T>
    requires q.items != []
  {
    q.(items := q.items[1..],
       taken := q.taken + [Taken(|q.taken| + q.dropped, q.dropped, |q.accepted|)])
  }

  function Push<T>(q: Log<T>, v: T): (PushOutcome, Log<T>)
    requires q.capacity >= 1
  {
    if q.policy == BlockWhenFull then
      if q.closed then (Refused, q)
      else if |q.items| < q.capacity then (Accepted, Append(q, v))
      else (MustWait, q)
    else if |q.items| >= q.capacity then (Accepted, Append(DropFront(q), v))
    else (Accepted, Append(q, v))
  }

  function Pop<T>(q: Log<T>): (PopOutcome<T>, Log<T>) {
    if q.items == [] then (if q.closed then Drained else MustSleep, q)
    else (Got(q.items[0]), TakeFront(q))
  }

  /** Drop everything but the last `keep` queued values. */
  function DropAllBut<T>(q: Log<T>, keep: nat): (r: Log<T>)
    ensures |q.items| >= keep ==> |r.items| == keep
    ensures r.closed == q.closed && r.capacity == q.capacity && r.policy == q.policy
    ensures r.accepted == q.accepted && r.taken == q.taken
    decreases |q.items|
  {
    if |q.items| > keep then DropAllBut(DropFront(q), keep) else q
  }

  function PopLatest<T>(q: Log<T>): (PopOutcome<T>, Log<T>) {
    if q.items == [] then (if q.closed then Drained else MustSleep, q)
    else
      var one := DropAllBut(q, 1);
      (Got(one.items[0]), TakeFront(one))
  }

  /** Hand out everything at once, oldest first. */
  function TakeAll<T>(q: Log<T>): (r: Log<T>)
    ensures r.items == [] && r.accepted == q.accepted && r.dropped == q.dropped
    ensures r.capacity == q.capacity && r.policy == q.policy && r.closed == q.closed
    decreases |q.items|
  {
    if q.items == [] then q else TakeAll(TakeFront(q))
  }

  function Close<T>(q: Log<T>): Log<T> {
    q.(closed := true)
  }

  // ── What every operation keeps ──────────────────────────────────────────────

  /** The queue is the part of the accepted stream that is neither handed out nor dropped. */
  ghost predicate Accounted<T>(q: Log<T>) {
    && |q.accepted| == |q.taken| + q.dropped + |q.items|
    && q.items == q.accepted[|q.taken| + q.dropped..]
  }

  /** The k-th hand-out is the accepted value number k plus the drops counted at that moment,
      it was at most `capacity` values old, and the counters only ever grow. */
  ghost predicate Ordered<T>(q: Log<T>) {
    && (forall k :: 0 <= k < |q.taken| ==>
          && q.taken[k].index == k + q.taken[k].dropped
          && q.taken[k].dropped <= q.dropped
          && q.taken[k].index < q.taken[k].accepted <= |q.accepted|
          && q.taken[k].accepted <= q.taken[k].index + q.capacity)
    && (forall j, k :: 0 <= j < k < |q.taken| ==>
          q.taken[j].dropped <= q.taken[k].dropped && q.taken[j].accepted <= q.taken[k].accepted)
  }

  ghost predicate Inv<T>(q: Log<T>) {
    && 1 <= q.capacity
    && |q.items| <= q.capacity
    && Accounted(q)
    && Ordered(q)
  }

  lemma AppendKeeps<T>(q: Log<T>, v: T)
    requires Inv(q) && |q.items| < q.capacity
    ensures Inv(Append(q, v))
  {
    assert Append(q, v).items == Append(q, v).accepted[|q.taken| + q.dropped..];
  }

  lemma DropFrontKeeps<T>(q: Log<T>)
    requires Inv(q) && q.items != []
    ensures Inv(DropFront(q))
  {
  }

  lemma TakeFrontKeeps<T>(q: Log<T>)
    requires Inv(q) && q.items != []
    ensures Inv(TakeFront(q))
    ensures q.items[0] == q.accepted[|q.taken| + q.dropped]
  {
  }

  lemma PushKeeps<T>(q: Log<T>, v: T)
    requires Inv(q)
    ensures Inv(Push(q, v).1)
    ensures Push(q, v).0.Accepted? ==> Push(q, v).1.accepted == q.accepted + [v]
    ensures !Push(q, v).0.Accepted? ==> Push(q, v).1 == q
  {
    if |q.items| < q.capacity {
      AppendKeeps(q, v);
    } else {
      DropFrontKeeps(q);
      AppendKeeps(DropFront(q), v);
    }
  }

  /** After close a push is refused exactly in blocking mode; drop-oldest still accepts. */
  lemma PushAfterCloseExactly<T>(q: Log<T>, v: T)
    requires Inv(q) && q.closed
    ensures Push(q, v).0 == Refused <==> q.policy == BlockWhenFull
    ensures Push(q, v).1.accepted == if q.policy == BlockWhenFull then q.accepted else q.accepted + [v]
  {
    PushKeeps(q, v);
  }

  lemma {:induction false} DropAllButKeeps<T>(q: Log<T>, keep: nat)
    requires Inv(q)
    ensures Inv(DropAllBut(q, keep))
    decreases |q.items|
  {
    if |q.items| > keep {
      DropFrontKeeps(q);
      DropAllButKeeps(DropFront(q), keep);
    }
  }

  lemma PopKeeps<T>(q: Log<T>)
    requires Inv(q)
    ensures Inv(Pop(q).1) && Pop(q).1.dropped == q.dropped
    ensures Pop(q).0.Got? ==> Pop(q).0.value == q.accepted[|q.taken| + q.dropped]
  {
    if q.items != [] {
      TakeFrontKeeps(q);
    }
  }

  /** `pop_latest` hands out the newest value ever accepted and leaves nothing behind. */
  lemma PopLatestTakesNewest<T>(q: Log<T>)
    requires Inv(q)
    ensures var (r, q') := PopLatest(q);
      && Inv(q')
      && q'.items == []
      && (r.Got? <==> q.items != [])
      && (r.Got? ==>
            && r.value == q.accepted[|q.accepted| - 1]
            && q'.taken == q.taken + [Taken(|q.accepted| - 1, q'.dropped, |q.accepted|)]
            && q'.dropped == q.dropped + |q.items| - 1)
  {
    if q.items != [] {
      var one := DropAllBut(q, 1);
      DropAllButKeeps(q, 1);
      TakeFrontKeeps(one);
    }
  }

  lemma TakeFrontDelivers<T>(q: Log<T>)
    requires Inv(q) && q.items != []
    ensures Inv(TakeFront(q)) && Delivered(TakeFront(q)) == Delivered(q) + [q.items[0]]
  {
    TakeFrontKeeps(q);
  }

  lemma {:induction false} TakeAllDeliversQueue<T>(q: Log<T>)
    requires Inv(q)
    ensures Inv(TakeAll(q))
    ensures Delivered(TakeAll(q)) == Delivered(q) + q.items
    decreases |q.items|
  {
    if q.items == [] {
      assert Delivered(q) + [] == Delivered(q);
    } else {
      TakeFrontDelivers(q);
      TakeAllDeliversQueue(TakeFront(q));
      SplitFront(Delivered(q), q.items);
    }
  }

  lemma SplitFront<T>(s: seq<T>, t: seq<T>)
    requires t != []
    ensures s + [t[0]] + t[1..] == s + t
  {
  }

  lemma PushKeepsDelivered<T>(q: Log<T>, v: T)
    requires Inv(q)
    ensures Inv(Push(q, v).1) && Delivered(Push(q, v).1) == Delivered(q)
  {
    PushKeeps(q, v);
  }

  ghost function Delivered<T>(q: Log<T>): seq<T>
    requires Inv(q)
  {
    seq(|q.taken|, k requires 0 <= k < |q.taken| => q.accepted[q.taken[k].index])
  }

  // ── Whole histories ─────────────────────────────────────────────────────────

  datatype Op<T> = PushOp(value: T) | PopOp | PopLatestOp | CloseOp

  function Apply<T>(q: Log<T>, op: Op<T>): Log<T>
    requires q.capacity >= 1
  {
    match op
    case PushOp(v) => Push(q, v).1
    case PopOp => Pop(q).1
    case PopLatestOp => PopLatest(q).1
    case CloseOp => Close(q)
  }

  function Run<T>(q: Log<T>, ops: seq<Op<T>>): (r: Log<T>)
    requires q.capacity >= 1
    ensures r.capacity == q.capacity && r.policy == q.policy
  {
    if ops == [] then q else Apply(Run(q, ops[..|ops| - 1]), ops[|ops| - 1])
  }

  lemma ApplyKeeps<T>(q: Log<T>, op: Op<T>)
    requires Inv(q)
    ensures Inv(Apply(q, op))
  {
    match op
    case PushOp(v) => PushKeeps(q, v);
    case PopOp => PopKeeps(q);
    case PopLatestOp => PopLatestTakesNewest(q);
    case CloseOp =>
  }

  lemma {:induction false} RunKeeps<T>(q: Log<T>, ops: seq<Op<T>>)
    requires Inv(q)
    ensures Inv(Run(q, ops))
  {
    if ops != [] {
      RunKeeps(q, ops[..|ops| - 1]);
      ApplyKeeps(Run(q, ops[..|ops| - 1]), ops[|ops| - 1]);
    }
  }

  /** `part` is `whole` with some entries left out, at the strictly increasing places `at`. */
  ghost predicate PickedAt<T>(part: seq<T>, whole: seq<T>, at: seq<nat>) {
    && |part| == |at|
    && Increasing(at)
    && forall k :: 0 <= k < |at| ==> at[k] < |whole| && part[k] == whole[at[k]]
  }

  ghost function TakenIndices<T>(q: Log<T>): seq<nat> {
    seq(|q.taken|, k requires 0 <= k < |q.taken| => q.taken[k].index)
  }

  /** In every history: bounded, contiguous, nothing duplicated and nothing reordered. */
  lemma EveryHistoryIsAccounted<T>(capacity: nat, policy: OverflowPolicy, ops: seq<Op<T>>)
    requires capacity >= 1
    ensures var q := Run(New<T>(capacity, policy), ops);
      && Inv(q)
      && |q.items| <= capacity
      && PickedAt(Delivered(q), q.accepted, TakenIndices(q))
      && q.items == q.accepted[|q.taken| + q.dropped..]
  {
    RunKeeps(New<T>(capacity, policy), ops);
  }

  lemma {:induction false} NothingDropped<T>(capacity: nat, ops: seq<Op<T>>)
    requires capacity >= 1
    requires PopLatestOp !in ops
    ensures Run(New<T>(capacity, BlockWhenFull), ops).dropped == 0
  {
    if ops != [] {
      var init, op := ops[..|ops| - 1], ops[|ops| - 1];
      assert op in ops;
      NothingDropped<T>(capacity, init);
      RunKeeps(New<T>(capacity, BlockWhenFull), init);
      PopKeeps(Run(New<T>(capacity, BlockWhenFull), init));
    }
  }

  lemma NoDropsMeansPrefix<T>(q: Log<T>)
    requires Inv(q) && q.dropped == 0
    ensures q.accepted == Delivered(q) + q.items
  {
    var n := |q.taken|;
    assert Delivered(q) == q.accepted[..n] by {
      forall k | 0 <= k < n ensures Delivered(q)[k] == q.accepted[k] {
        assert q.taken[k].index == k;
      }
    }
    assert q.accepted == q.accepted[..n] + q.accepted[n..];
  }

  /** Back-pressure mode without `pop_latest` is a lossless FIFO. */
  lemma BlockingPopIsLossless<T>(capacity: nat, ops: seq<Op<T>>)
    requires capacity >= 1
    requires PopLatestOp !in ops
    ensures var q := Run(New<T>(capacity, BlockWhenFull), ops);
      Inv(q) && q.accepted == Delivered(q) + q.items
  {
    NothingDropped<T>(capacity, ops);
    RunKeeps(New<T>(capacity, BlockWhenFull), ops);
    NoDropsMeansPrefix(Run(New<T>(capacity, BlockWhenFull), ops));
  }
}
