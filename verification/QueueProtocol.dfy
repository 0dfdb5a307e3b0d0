/**
  Wait and notify on the queue's two condition variables, for any number of threads that
  freely mix push, pop, pop_latest and close.  A step is what one thread does while it holds
  the lock; `close` takes three steps, because it sets the flag under the lock and notifies
  each condition variable after releasing it.  A thread asleep in a wait may be woken for no
  reason at any time.
 */
module QueueProtocol {
  import opened Wrappers
  import opened QueueLog

  type Thread = nat

  datatype Call<T> = PushCall(value: T) | PopCall | PopLatestCall

  datatype State<T> = State(
    q: Log<T>,
    calls: map<Thread, Call<T>>,  // what each waiting thread is trying to do
    pSleep: set<Thread>,          // producers asleep in not_full_
    pWoken: set<Thread>,          // producers notified, still to re-test the predicate
    cSleep: set<Thread>,          // consumers asleep in not_empty_
    cWoken: set<Thread>,
    flagged: set<Thread>,         // inside close(): flag set, nobody notified
    halfway: set<Thread>)         // inside close(): consumers notified, producers not

  datatype Step<T> =
    | Enter(t: Thread, call: Call<T>, wake: Option<Thread>)
    | Retry(t: Thread, wake: Option<Thread>)
    | Spurious(t: Thread)
    | CloseFlag(t: Thread)
    | CloseNotifyConsumers(t: Thread)
    | CloseNotifyProducers(t: Thread)

  function Init<T>(capacity: nat, policy: OverflowPolicy): State<T> {
    State(New(capacity, policy), map[], {}, {}, {}, {}, {}, {})
  }

  /** How one pass through the critical section ends for the caller. */
  datatype End = Sleeps | Fails | Succeeds

  function Outcome<T>(q: Log<T>, call: Call<T>): (End, Log<T>)
    requires q.capacity >= 1
  {
    match call
    case PushCall(v) =>
      var (o, q') := Push(q, v);
      (if o == MustWait then Sleeps else if o == Refused then Fails else Succeeds, q')
    case PopCall =>
      var (o, q') := Pop(q);
      (if o.MustSleep? then Sleeps else if o.Drained? then Fails else Succeeds, q')
    case PopLatestCall =>
      var (o, q') := PopLatest(q);
      (if o.MustSleep? then Sleeps else if o.Drained? then Fails else Succeeds, q')
  }

  /** Only a call that succeeds notifies: one consumer after a push, one producer after a pop
      of either kind. */
  function Notified<T>(s: State<T>, call: Call<T>): set<Thread>
    requires s.q.capacity >= 1
  {
    if Outcome(s.q, call).0 != Succeeds then {}
    else if call.PushCall? then s.cSleep
    else s.pSleep
  }

  /** notify_one wakes some sleeper exactly if there is one. */
  predicate Chosen(sleepers: set<Thread>, wake: Option<Thread>) {
    match wake
    case None => sleepers == {}
    case Some(w) => w in sleepers
  }

  function Wake<T>(s: State<T>, wake: Option<Thread>): State<T> {
    match wake
    case None => s
    case Some(w) =>
      if w in s.pSleep then s.(pSleep := s.pSleep - {w}, pWoken := s.pWoken + {w})
      else s.(cSleep := s.cSleep - {w}, cWoken := s.cWoken + {w})
  }

  /** One pass of `t`, which is in no wait set, through the critical section. */
  function Attempt<T>(s: State<T>, t: Thread, call: Call<T>, wake: Option<Thread>): State<T>
    requires s.q.capacity >= 1
  {
    var (end, q') := Outcome(s.q, call);
    if end != Sleeps then Wake(s.(q := q'), wake)
    else if call.PushCall? then s.(calls := s.calls[t := call], pSleep := s.pSleep + {t})
    else s.(calls := s.calls[t := call], cSleep := s.cSleep + {t})
  }

  function Leave<T>(s: State<T>, t: Thread): State<T> {
    s.(calls := s.calls - {t}, pWoken := s.pWoken - {t}, cWoken := s.cWoken - {t})
  }

  ghost predicate Enabled<T>(s: State<T>, step: Step<T>) {
    && s.q.capacity >= 1
    && match step
       case Enter(t, call, wake) =>
         t !in s.calls && t !in s.flagged && t !in s.halfway && Chosen(Notified(s, call), wake)
       case Retry(t, wake) =>
         t in s.calls && (t in s.pWoken || t in s.cWoken) && Chosen(Notified(s, s.calls[t]), wake)
       case Spurious(t) => t in s.pSleep || t in s.cSleep
       case CloseFlag(t) => t !in s.calls && t !in s.flagged && t !in s.halfway
       case CloseNotifyConsumers(t) => t in s.flagged
       case CloseNotifyProducers(t) => t in s.halfway
  }

  function Next<T>(s: State<T>, step: Step<T>): State<T>
    requires Enabled(s, step)
  {
    match step
    case Enter(t, call, wake) => Attempt(s, t, call, wake)
    case Retry(t, wake) => Attempt(Leave(s, t), t, s.calls[t], wake)
    case Spurious(t) => Wake(s, Some(t))
    case CloseFlag(t) => s.(q := Close(s.q), flagged := s.flagged + {t})
    case CloseNotifyConsumers(t) =>
      s.(cSleep := {}, cWoken := s.cWoken + s.cSleep,
         flagged := s.flagged - {t}, halfway := s.halfway + {t})
    case CloseNotifyProducers(t) =>
      s.(pSleep := {}, pWoken := s.pWoken + s.pSleep, halfway := s.halfway - {t})
  }

  // ── Invariants ──────────────────────────────────────────────────────────────

  /** Thread `t` is in at most one wait set, on the side of the queue its call is for. */
  ghost predicate Placed<T>(s: State<T>, t: Thread) {
    && (t in s.calls <==> t in s.pSleep || t in s.pWoken || t in s.cSleep || t in s.cWoken)
    && (t in s.pSleep ==> t !in s.pWoken && s.q.policy == BlockWhenFull)
    && (t in s.cSleep ==> t !in s.cWoken)
    && (t in s.pSleep || t in s.pWoken ==> t in s.calls && s.calls[t].PushCall?)
    && (t in s.cSleep || t in s.cWoken ==> t in s.calls && !s.calls[t].PushCall?)
  }

  ghost predicate WellFormed<T>(s: State<T>) {
    Inv(s.q) && forall t :: Placed(s, t)
  }

  /** A consumer sleeps un-notified only if every queued value already has a notified taker. */
  ghost predicate ConsumersCovered<T>(s: State<T>) {
    s.cSleep != {} ==> |s.q.items| <= |s.cWoken|
  }

  /** A producer sleeps beside an empty queue only if another producer has been notified. */
  ghost predicate ProducersCovered<T>(s: State<T>) {
    s.pSleep != {} && !s.q.closed && s.q.items == [] ==> s.pWoken != {}
  }

  /** Once closed, a sleeper is one that some close() call has still to notify. */
  ghost predicate CloseOwesWakeups<T>(s: State<T>) {
    s.q.closed ==>
      && (s.cSleep != {} ==> s.flagged != {})
      && (s.pSleep != {} ==> s.flagged != {} || s.halfway != {})
  }

  ghost predicate Safe<T>(s: State<T>) {
    WellFormed(s) && ConsumersCovered(s) && ProducersCovered(s) && CloseOwesWakeups(s)
  }

  /** Every free slot has a notified producer, if any producer sleeps. */
  ghost predicate SlotsCovered<T>(s: State<T>) {
    s.pSleep != {} && !s.q.closed ==> s.q.capacity - |s.q.items| <= |s.pWoken|
  }

  lemma AddOne(s: set<Thread>, t: Thread)
    ensures t !in s ==> |s + {t}| == |s| + 1
    ensures t in s ==> |s - {t}| == |s| - 1
  {
  }

  lemma OutcomeFacts<T>(q: Log<T>, call: Call<T>)
    requires Inv(q)
    ensures var (end, q') := Outcome(q, call);
      && Inv(q') && q'.closed == q.closed && q'.policy == q.policy && q'.capacity == q.capacity
      && (end == Succeeds ==> q.items != [] || q'.items != [])
      && (end != Succeeds ==> q' == q)
      && (end == Sleeps ==> !q.closed)
      && (call.PushCall? ==>
            && (end == Sleeps ==> q.policy == BlockWhenFull && |q.items| == q.capacity)
            && (end == Fails ==> q.closed)
            && (end == Succeeds ==>
                  && (q.policy == BlockWhenFull ==> |q.items| < q.capacity)
                  && |q'.items| == if |q.items| < q.capacity then |q.items| + 1 else |q.items|))
      && (!call.PushCall? ==>
            && (end == Succeeds <==> q.items != [])
            && (end == Succeeds ==> |q'.items| == if call.PopCall? then |q.items| - 1 else 0))
  {
    match call
    case PushCall(v) => PushKeeps(q, v);
    case PopCall => PopKeeps(q);
    case PopLatestCall => PopLatestTakesNewest(q);
  }

  lemma LeaveKeeps<T>(s: State<T>, t: Thread)
    requires WellFormed(s) && (t in s.pWoken || t in s.cWoken)
    ensures WellFormed(Leave(s, t)) && t !in Leave(s, t).calls
    ensures t in s.cWoken ==> Leave(s, t).pWoken == s.pWoken && |Leave(s, t).cWoken| == |s.cWoken| - 1
    ensures t in s.pWoken ==> Leave(s, t).cWoken == s.cWoken && |Leave(s, t).pWoken| == |s.pWoken| - 1
  {
    assert Placed(s, t);
    AddOne(s.cWoken, t);
    AddOne(s.pWoken, t);
    var s' := Leave(s, t);
    forall u ensures Placed(s', u) {
      assert Placed(s, u);
    }
  }

  lemma WakeKeeps<T>(s: State<T>, w: Thread)
    requires WellFormed(s) && (w in s.pSleep || w in s.cSleep)
    ensures WellFormed(Wake(s, Some(w)))
    ensures w in s.cSleep ==> Wake(s, Some(w)).pWoken == s.pWoken && Wake(s, Some(w)).pSleep == s.pSleep
                              && |Wake(s, Some(w)).cWoken| == |s.cWoken| + 1
    ensures w in s.pSleep ==> Wake(s, Some(w)).cWoken == s.cWoken && Wake(s, Some(w)).cSleep == s.cSleep
                              && |Wake(s, Some(w)).pWoken| == |s.pWoken| + 1
  {
    assert Placed(s, w);
    AddOne(s.cWoken, w);
    AddOne(s.pWoken, w);
    var s' := Wake(s, Some(w));
    forall u ensures Placed(s', u) {
      assert Placed(s, u);
    }
  }

  lemma SleepKeeps<T>(s: State<T>, t: Thread, call: Call<T>, wake: Option<Thread>)
    requires WellFormed(s) && t !in s.calls
    requires Outcome(s.q, call).0 == Sleeps
    ensures var s' := Attempt(s, t, call, wake);
      && WellFormed(s')
      && s'.pWoken == s.pWoken && s'.cWoken == s.cWoken && s'.q == s.q
      && s'.flagged == s.flagged && s'.halfway == s.halfway
      && (call.PushCall? ==> s'.cSleep == s.cSleep && s.q.policy == BlockWhenFull)
      && (!call.PushCall? ==> s'.pSleep == s.pSleep)
  {
    OutcomeFacts(s.q, call);
    var s' := Attempt(s, t, call, wake);
    forall u ensures Placed(s', u) {
      assert Placed(s, u);
    }
  }

  lemma QueueChangeKeeps<T>(s: State<T>, q': Log<T>)
    requires WellFormed(s) && Inv(q') && q'.policy == s.q.policy
    ensures WellFormed(s.(q := q'))
  {
    forall u ensures Placed(s.(q := q'), u) {
      assert Placed(s, u);
    }
  }

  /** The attempt itself, whoever makes it.  A retry has already used up its notification, so
      what is assumed about its own side of the queue is one weaker than the invariant. */
  lemma AttemptKeeps<T>(s: State<T>, t: Thread, call: Call<T>, wake: Option<Thread>)
    requires WellFormed(s) && t !in s.calls && CloseOwesWakeups(s)
    requires Chosen(Notified(s, call), wake)
    requires call.PushCall? ==> ConsumersCovered(s)
    requires !call.PushCall? ==> ProducersCovered(s)
    requires !call.PushCall? && s.cSleep != {} ==> |s.q.items| <= |s.cWoken| + 1
    ensures Safe(Attempt(s, t, call, wake))
  {
    OutcomeFacts(s.q, call);
    var (end, q') := Outcome(s.q, call);
    if end == Sleeps {
      SleepKeeps(s, t, call, wake);
    } else {
      QueueChangeKeeps(s, q');
      if wake.Some? {
        WakeKeeps(s.(q := q'), wake.value);
      }
    }
  }

  lemma NotifyAllKeeps<T>(s: State<T>, s': State<T>)
    requires WellFormed(s) && s'.q == s.q && s'.calls == s.calls
    requires (s'.pSleep == s.pSleep && s'.pWoken == s.pWoken) || (s'.pSleep == {} && s'.pWoken == s.pWoken + s.pSleep)
    requires (s'.cSleep == s.cSleep && s'.cWoken == s.cWoken) || (s'.cSleep == {} && s'.cWoken == s.cWoken + s.cSleep)
    ensures WellFormed(s')
  {
    forall u ensures Placed(s', u) {
      assert Placed(s, u);
    }
  }

  lemma StepKeepsSafe<T>(s: State<T>, step: Step<T>)
    requires Safe(s) && Enabled(s, step)
    ensures Safe(Next(s, step))
  {
    match step
    case Enter(t, call, wake) =>
      AttemptKeeps(s, t, call, wake);
    case Retry(t, wake) =>
      LeaveKeeps(s, t);
      assert Placed(s, t);
      AttemptKeeps(Leave(s, t), t, s.calls[t], wake);
    case Spurious(t) =>
      assert Placed(s, t);
      WakeKeeps(s, t);
    case CloseFlag(t) =>
      forall u ensures Placed(Next(s, step), u) {
        assert Placed(s, u);
      }
    case CloseNotifyConsumers(t) =>
      NotifyAllKeeps(s, Next(s, step));
    case CloseNotifyProducers(t) =>
      NotifyAllKeeps(s, Next(s, step));
  }

  // ── Runs ────────────────────────────────────────────────────────────────────

  ghost predicate Trace<T>(trace: seq<State<T>>, steps: seq<Step<T>>, capacity: nat, policy: OverflowPolicy) {
    && capacity >= 1
    && |trace| == |steps| + 1
    && trace[0] == Init(capacity, policy)
    && forall i {:trigger steps[i]} :: 0 <= i < |steps| ==>
         Enabled(trace[i], steps[i]) && trace[i + 1] == Next(trace[i], steps[i])
  }

  lemma InitIsSafe<T>(capacity: nat, policy: OverflowPolicy)
    requires capacity >= 1
    ensures Safe(Init<T>(capacity, policy))
  {
  }

  lemma StepKeepsKind<T>(s: State<T>, step: Step<T>)
    requires Safe(s) && Enabled(s, step)
    ensures Next(s, step).q.capacity == s.q.capacity && Next(s, step).q.policy == s.q.policy
  {
    match step
    case Enter(t, call, wake) => OutcomeFacts(s.q, call);
    case Retry(t, wake) => OutcomeFacts(s.q, s.calls[t]);
    case Spurious(t) =>
    case CloseFlag(t) =>
    case CloseNotifyConsumers(t) =>
    case CloseNotifyProducers(t) =>
  }

  lemma {:induction false} EveryRunIsSafe<T>(
    trace: seq<State<T>>, steps: seq<Step<T>>, capacity: nat, policy: OverflowPolicy, i: nat)
    requires Trace(trace, steps, capacity, policy) && i < |trace|
    ensures Safe(trace[i]) && trace[i].q.capacity == capacity && trace[i].q.policy == policy
  {
    if i == 0 {
      InitIsSafe<T>(capacity, policy);
    } else {
      EveryRunIsSafe(trace, steps, capacity, policy, i - 1);
      StepKeepsSafe(trace[i - 1], steps[i - 1]);
      StepKeepsKind(trace[i - 1], steps[i - 1]);
    }
  }

  /** The next time `t` gets the lock, its call returns. */
  ghost predicate Completes<T>(s: State<T>, t: Thread) {
    s.q.capacity >= 1 && t in s.calls && Outcome(s.q, s.calls[t]).0 != Sleeps
  }

  ghost predicate AwakeAndCompletes<T>(s: State<T>, t: Thread) {
    (t in s.pWoken || t in s.cWoken) && Completes(s, t)
  }

  lemma SomeMember(s: set<Thread>) returns (t: Thread)
    requires s != {}
    ensures t in s
  {
    t :| t in s;
  }

  /**
    No lost wakeup and no deadlock, in every interleaving of push, pop, pop_latest and close:
    a sleeper is never left beside work it could do unless somebody already notified is about
    to do it, so producers and consumers are never all asleep; and once close() has finished
    notifying, nobody sleeps and every waiter's call returns.
   */
  lemma NoLostWakeup<T>(
    trace: seq<State<T>>, steps: seq<Step<T>>, capacity: nat, policy: OverflowPolicy, i: nat)
    requires Trace(trace, steps, capacity, policy) && i < |trace|
    ensures var s := trace[i];
      && (s.cSleep != {} && s.q.items != [] ==> exists t :: t in s.cWoken && Completes(s, t))
      && (s.pSleep != {} && s.q.items == [] && !s.q.closed ==> exists t :: t in s.pWoken && Completes(s, t))
      && (s.pSleep != {} && s.cSleep != {} && !s.q.closed ==> exists t :: AwakeAndCompletes(s, t))
      && (s.q.closed && s.flagged == {} && s.halfway == {} ==>
            s.pSleep == {} && s.cSleep == {} && forall t :: t in s.calls ==> AwakeAndCompletes(s, t))
  {
    EveryRunIsSafe(trace, steps, capacity, policy, i);
    var s := trace[i];
    if s.cSleep != {} && s.q.items != [] {
      assert s.cWoken != {};
      var t := SomeMember(s.cWoken);
      assert Placed(s, t);
      OutcomeFacts(s.q, s.calls[t]);
      assert AwakeAndCompletes(s, t);
    } else if s.pSleep != {} && s.q.items == [] && !s.q.closed {
      var t := SomeMember(s.pWoken);
      assert Placed(s, t);
      OutcomeFacts(s.q, s.calls[t]);
      assert AwakeAndCompletes(s, t);
    }
    if s.q.closed && s.flagged == {} && s.halfway == {} {
      forall t | t in s.calls ensures AwakeAndCompletes(s, t) {
        assert Placed(s, t);
        OutcomeFacts(s.q, s.calls[t]);
      }
    }
  }

  /** `t` gets the lock for a push, on arrival or after a wakeup. */
  predicate IsPush<T>(s: State<T>, step: Step<T>) {
    || (step.Enter? && step.call.PushCall?)
    || (step.Retry? && step.t in s.calls && s.calls[step.t].PushCall?)
  }

  function CallOf<T>(s: State<T>, step: Step<T>): Call<T>
    requires step.Enter? || (step.Retry? && step.t in s.calls)
  {
    if step.Enter? then step.call else s.calls[step.t]
  }

  lemma {:induction false} ClosedStays<T>(
    trace: seq<State<T>>, steps: seq<Step<T>>, capacity: nat, policy: OverflowPolicy, j: nat, i: nat)
    requires Trace(trace, steps, capacity, policy) && j < |steps| && steps[j].CloseFlag? && j < i < |trace|
    ensures trace[i].q.closed
  {
    if i == j + 1 {
      assert trace[i] == Next(trace[j], steps[j]);
    } else {
      ClosedStays(trace, steps, capacity, policy, j, i - 1);
      EveryRunIsSafe(trace, steps, capacity, policy, i - 1);
      StepKeepsClosed(trace[i - 1], steps[i - 1]);
    }
  }

  lemma StepKeepsClosed<T>(s: State<T>, step: Step<T>)
    requires Safe(s) && Enabled(s, step) && s.q.closed
    ensures Next(s, step).q.closed
  {
    match step
    case Enter(t, call, wake) => OutcomeFacts(s.q, call);
    case Retry(t, wake) => OutcomeFacts(s.q, s.calls[t]);
    case Spurious(t) =>
    case CloseFlag(t) =>
    case CloseNotifyConsumers(t) =>
    case CloseNotifyProducers(t) =>
  }

  /** In every run: a push that gets the lock once close() has set the flag, having just arrived
      or slept through it, fails in blocking mode and succeeds in drop-oldest mode. */
  lemma PushAfterCloseFailsExactly<T>(
    trace: seq<State<T>>, steps: seq<Step<T>>, capacity: nat, policy: OverflowPolicy, j: nat, i: nat)
    requires Trace(trace, steps, capacity, policy) && j < i < |steps|
    requires steps[j].CloseFlag? && IsPush(trace[i], steps[i])
    ensures trace[i].q.capacity >= 1
    ensures var end := Outcome(trace[i].q, CallOf(trace[i], steps[i])).0;
      && end != Sleeps
      && (end == Fails <==> policy == BlockWhenFull)
  {
    ClosedStays(trace, steps, capacity, policy, j, i);
    EveryRunIsSafe(trace, steps, capacity, policy, i);
    PushAfterCloseExactly(trace[i].q, CallOf(trace[i], steps[i]).value);
  }

  // ── One pass, seen from outside ─────────────────────────────────────────────

  lemma EnterLeaves<T>(q: State<T>, t: Thread, call: Call<T>, wake: Option<Thread>)
    requires Safe(q) && Enabled(q, Enter(t, call, wake))
    ensures var (end, after) := Outcome(q.q, call);
      var q' := Next(q, Enter(t, call, wake));
      && q'.q == after && (end == Sleeps ==> after == q.q)
      && q'.flagged == q.flagged && q'.halfway == q.halfway
      && q'.calls == (if end == Sleeps then q.calls[t := call] else q.calls)
  {
    OutcomeFacts(q.q, call);
  }

  lemma RetryLeaves<T>(q: State<T>, t: Thread, wake: Option<Thread>)
    requires Safe(q) && Enabled(q, Retry(t, wake))
    ensures var (end, after) := Outcome(q.q, q.calls[t]);
      var q' := Next(q, Retry(t, wake));
      && q'.q == after && (end == Sleeps ==> after == q.q)
      && q'.flagged == q.flagged && q'.halfway == q.halfway
      && q'.calls == (if end == Sleeps then q.calls else q.calls - {t})
  {
    OutcomeFacts(q.q, q.calls[t]);
    assert (q.calls - {t})[t := q.calls[t]] == q.calls;
  }

  /** `t` goes for the lock with this call: it arrives, or tries again after a wakeup. */
  function PassStep<T>(s: State<T>, t: Thread, call: Call<T>, wake: Option<Thread>): Step<T> {
    if t in s.calls then Retry(t, wake) else Enter(t, call, wake)
  }

  lemma PassLeaves<T>(s: State<T>, t: Thread, call: Call<T>, wake: Option<Thread>)
    requires Safe(s) && Enabled(s, PassStep(s, t, call, wake))
    requires t in s.calls ==> s.calls[t] == call
    ensures var (end, after) := Outcome(s.q, call);
      var s' := Next(s, PassStep(s, t, call, wake));
      && s'.q == after && (end == Sleeps ==> after == s.q)
      && s'.flagged == s.flagged && s'.halfway == s.halfway
      && s'.calls == (if end == Sleeps then s.calls[t := call] else s.calls - {t})
  {
    if t in s.calls {
      RetryLeaves(s, t, wake);
      assert s.calls[t := call] == s.calls;
    } else {
      EnterLeaves(s, t, call, wake);
      assert s.calls - {t} == s.calls;
    }
  }

  // ── Slots for sleeping producers ────────────────────────────────────────────

  ghost predicate OnlyPop<T>(s: State<T>) {
    forall t :: t in s.calls ==> !s.calls[t].PopLatestCall?
  }

  lemma AttemptKeepsSlots<T>(s: State<T>, t: Thread, call: Call<T>, wake: Option<Thread>)
    requires WellFormed(s) && t !in s.calls
    requires Chosen(Notified(s, call), wake)
    requires call.PopCall? ==> SlotsCovered(s)
    requires call.PushCall? && s.pSleep != {} && !s.q.closed ==> s.q.capacity - |s.q.items| <= |s.pWoken| + 1
    requires !call.PopLatestCall?
    ensures SlotsCovered(Attempt(s, t, call, wake))
  {
    OutcomeFacts(s.q, call);
    var (end, q') := Outcome(s.q, call);
    if end == Sleeps {
      SleepKeeps(s, t, call, wake);
    } else {
      QueueChangeKeeps(s, q');
      if wake.Some? {
        WakeKeeps(s.(q := q'), wake.value);
      }
    }
  }

  lemma StepKeepsOnlyPop<T>(s: State<T>, step: Step<T>)
    requires OnlyPop(s) && Enabled(s, step)
    requires step.Enter? ==> !step.call.PopLatestCall?
    ensures OnlyPop(Next(s, step))
  {
    forall u | u in Next(s, step).calls ensures !Next(s, step).calls[u].PopLatestCall? {
      assert u in s.calls || (step.Enter? && u == step.t);
    }
  }

  lemma RetryKeepsSlots<T>(s: State<T>, t: Thread, wake: Option<Thread>)
    requires Safe(s) && SlotsCovered(s) && OnlyPop(s) && Enabled(s, Retry(t, wake))
    ensures SlotsCovered(Next(s, Retry(t, wake)))
  {
    LeaveKeeps(s, t);
    assert Placed(s, t);
    AttemptKeepsSlots(Leave(s, t), t, s.calls[t], wake);
  }

  lemma StepKeepsSlots<T>(s: State<T>, step: Step<T>)
    requires Safe(s) && SlotsCovered(s) && OnlyPop(s) && Enabled(s, step)
    requires step.Enter? ==> !step.call.PopLatestCall?
    ensures SlotsCovered(Next(s, step)) && OnlyPop(Next(s, step))
  {
    StepKeepsOnlyPop(s, step);
    match step
    case Enter(t, call, wake) =>
      AttemptKeepsSlots(s, t, call, wake);
    case Retry(t, wake) =>
      RetryKeepsSlots(s, t, wake);
    case Spurious(t) =>
      assert Placed(s, t);
      WakeKeeps(s, t);
    case CloseFlag(t) =>
    case CloseNotifyConsumers(t) =>
    case CloseNotifyProducers(t) =>
  }

  /** Without pop_latest no slot is ever left idle: until the queue is closed, a producer sleeps
      only while every free slot is promised to a producer already notified. */
  lemma {:induction false} PopOnlyRunsCoverSlots<T>(
    trace: seq<State<T>>, steps: seq<Step<T>>, capacity: nat, policy: OverflowPolicy, i: nat)
    requires Trace(trace, steps, capacity, policy) && i < |trace|
    requires forall k :: 0 <= k < |steps| && steps[k].Enter? ==> !steps[k].call.PopLatestCall?
    ensures SlotsCovered(trace[i]) && OnlyPop(trace[i])
  {
    if i > 0 {
      PopOnlyRunsCoverSlots(trace, steps, capacity, policy, i - 1);
      EveryRunIsSafe(trace, steps, capacity, policy, i - 1);
      StepKeepsSlots(trace[i - 1], steps[i - 1]);
    }
  }

  /** The attempt of a pop_latest, whether its thread has just arrived or was woken: all slots
      come free, one producer is notified. */
  lemma PopLatestSlots<T>(s: State<T>, t: Thread, wake: Option<Thread>)
    requires WellFormed(s) && t !in s.calls && s.q.items != [] && !s.q.closed
    requires Chosen(Notified(s, PopLatestCall), wake)
    ensures SlotsCovered(Attempt(s, t, PopLatestCall, wake)) <==> |s.pSleep| <= 1 || s.q.capacity <= |s.pWoken| + 1
  {
    OutcomeFacts(s.q, PopLatestCall);
    var q' := Outcome(s.q, PopLatestCall).1;
    QueueChangeKeeps(s, q');
    if wake.Some? {
      WakeKeeps(s.(q := q'), wake.value);
      AddOne(s.pSleep, wake.value);
      assert s.pSleep - {wake.value} == {} <==> |s.pSleep - {wake.value}| == 0;
    }
  }

  /** One turn of a pop_latest, on arrival or after a wakeup. */
  predicate IsPopLatest<T>(s: State<T>, step: Step<T>) {
    || (step.Enter? && step.call.PopLatestCall?)
    || (step.Retry? && step.t in s.calls && s.calls[step.t].PopLatestCall?)
  }

  /** A successful pop_latest frees every slot but notifies one producer, so it keeps the slots
      covered exactly when at most one producer slept or the other slots were spoken for. */
  lemma PopLatestKeepsSlotsExactly<T>(s: State<T>, step: Step<T>)
    requires Safe(s) && s.q.items != [] && !s.q.closed
    requires Enabled(s, step) && IsPopLatest(s, step)
    ensures SlotsCovered(Next(s, step)) <==> |s.pSleep| <= 1 || s.q.capacity <= |s.pWoken| + 1
  {
    match step
    case Enter(t, call, wake) =>
      PopLatestSlots(s, t, wake);
    case Retry(t, wake) =>
      assert Placed(s, t);
      LeaveKeeps(s, t);
      PopLatestSlots(Leave(s, t), t, wake);
  }

  lemma TraceExtends<T>(
    trace: seq<State<T>>, steps: seq<Step<T>>, capacity: nat, policy: OverflowPolicy, step: Step<T>, s: State<T>)
    requires Trace(trace, steps, capacity, policy) && Enabled(trace[|steps|], step) && s == Next(trace[|steps|], step)
    ensures Trace(trace + [s], steps + [step], capacity, policy)
  {
    var trace', steps' := trace + [s], steps + [step];
    forall i {:trigger steps'[i]} | 0 <= i < |steps'|
      ensures Enabled(trace'[i], steps'[i]) && trace'[i + 1] == Next(trace'[i], steps'[i])
    {
      if i < |steps| {
        assert steps'[i] == steps[i];
      }
    }
  }

  const FULL_QUEUE: Log<int> := Log(2, BlockWhenFull, [10, 11], 0, false, [10, 11], [])

  /** A full queue of two and two producers asleep at it. */
  function TwoAsleep(): State<int> {
    State(FULL_QUEUE, map[1 := PushCall(12), 2 := PushCall(13)], {1, 2}, {}, {}, {}, {}, {})
  }

  lemma FillQueue() returns (trace: seq<State<int>>, steps: seq<Step<int>>)
    ensures Trace(trace, steps, 2, BlockWhenFull)
    ensures trace[|steps|] == State(FULL_QUEUE, map[], {}, {}, {}, {}, {}, {})
  {
    var s0 := Init<int>(2, BlockWhenFull);
    var s1 := s0.(q := Log(2, BlockWhenFull, [10], 0, false, [10], []));
    trace, steps := [s0], [];
    TraceExtends(trace, steps, 2, BlockWhenFull, Enter(0, PushCall(10), None), s1);
    trace, steps := trace + [s1], steps + [Enter(0, PushCall(10), None)];
    TraceExtends(trace, steps, 2, BlockWhenFull, Enter(0, PushCall(11), None), s1.(q := FULL_QUEUE));
    trace, steps := trace + [s1.(q := FULL_QUEUE)], steps + [Enter(0, PushCall(11), None)];
  }

  lemma ProducersSleep() returns (trace: seq<State<int>>, steps: seq<Step<int>>)
    ensures Trace(trace, steps, 2, BlockWhenFull) && trace[|steps|] == TwoAsleep()
  {
    trace, steps := FillQueue();
    var s := trace[|steps|];
    var s1 := s.(calls := map[1 := PushCall(12)], pSleep := {1});
    TraceExtends(trace, steps, 2, BlockWhenFull, Enter(1, PushCall(12), None), s1);
    trace, steps := trace + [s1], steps + [Enter(1, PushCall(12), None)];
    TraceExtends(trace, steps, 2, BlockWhenFull, Enter(2, PushCall(13), None), TwoAsleep());
    trace, steps := trace + [TwoAsleep()], steps + [Enter(2, PushCall(13), None)];
  }

  /** It does happen: two producers asleep beside a full queue of two, one pop_latest, and one
      of them is still asleep beside a free slot nobody has been notified about. */
  lemma PopLatestCanLeaveASlotIdle() returns (trace: seq<State<int>>, steps: seq<Step<int>>)
    ensures Trace(trace, steps, 2, BlockWhenFull)
    ensures !SlotsCovered(trace[|steps|])
  {
    trace, steps := ProducersSleep();
    var step: Step<int> := Enter(3, PopLatestCall, Some(1));
    assert Outcome(FULL_QUEUE, PopLatestCall).0 == Succeeds;
    var s := Next(TwoAsleep(), step);
    assert s.q.items == [] && s.pSleep == {2} && s.pWoken == {1};
    TraceExtends(trace, steps, 2, BlockWhenFull, step, s);
    trace, steps := trace + [s], steps + [step];
  }
}
