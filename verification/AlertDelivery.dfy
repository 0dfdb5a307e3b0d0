/**
  Which published alerts a client gets.  An alert is named by its place in the published history,
  counted from 0.  It can miss a client in two ways: the queue overflows before the alert is
  drained, or it is drained before the client's handshake has completed.
 */
module AlertDelivery {
  import opened AlertPublisher
  import opened Arithmetic
  import opened QueueLog

  // ── What is lost ────────────────────────────────────────────────────────────

  /** The place of the oldest alert still queued. */
  function Front<T>(q: Log<T>): nat {
    |q.taken| + q.dropped
  }

  /** Alert number `j` has left the queue, but not through a drain. */
  ghost predicate Lost<T>(q: Log<T>, j: nat) {
    j < Front(q) && forall m :: 0 <= m < |q.taken| ==> q.taken[m].index != j
  }

  /** A publish that finds the queue full. */
  predicate Overflows(s: State, step: Step) {
    step.PublishPush? && |s.q.items| >= MAX_QUEUE
  }

  lemma PushLoses<T>(q: Log<T>, v: T, j: nat)
    requires Inv(q) && q.policy == DropOldestWhenFull
    ensures var q' := Push(q, v).1;
      && q'.taken == q.taken && q'.accepted == q.accepted + [v]
      && Front(q') == (if |q.items| >= q.capacity then Front(q) + 1 else Front(q))
      && (Lost(q', j) <==> Lost(q, j) || (|q.items| >= q.capacity && j == Front(q)))
  {
    assert forall m :: 0 <= m < |q.taken| ==> q.taken[m].index < Front(q);
  }

  lemma TakeFrontLoses<T>(q: Log<T>, j: nat)
    requires q.items != []
    ensures Lost(TakeFront(q), j) <==> Lost(q, j)
  {
    var q' := TakeFront(q);
    assert q'.taken[|q.taken|].index == Front(q);
    assert forall m :: 0 <= m < |q.taken| ==> q'.taken[m] == q.taken[m];
  }

  /** A drain loses nothing, and hands out only what was queued. */
  lemma {:induction false} TakeAllLoses<T>(q: Log<T>, j: nat)
    requires Inv(q)
    ensures var q' := TakeAll(q);
      && Inv(q') && q.taken <= q'.taken && Front(q') == Front(q) + |q.items|
      && (forall m :: |q.taken| <= m < |q'.taken| ==> q'.taken[m].index >= Front(q))
      && (Lost(q', j) <==> Lost(q, j))
    decreases |q.items|
  {
    if q.items != [] {
      TakeFrontKeeps(q);
      TakeFrontLoses(q, j);
      TakeAllLoses(TakeFront(q), j);
    }
  }

  /** What one step does to the queue. */
  lemma StepLoses(s: State, step: Step, j: nat)
    requires QueueSound(s) && Enabled(s, step)
    ensures var q' := Next(s, step).q;
      && s.q.taken <= q'.taken && s.q.accepted <= q'.accepted
      && Front(q') >= (if Overflows(s, step) then Front(s.q) + 1 else Front(s.q))
      && (forall m :: |s.q.taken| <= m < |q'.taken| ==> q'.taken[m].index >= Front(s.q))
      && (Lost(q', j) <==> Lost(s.q, j) || (Overflows(s, step) && j == Front(s.q)))
  {
    match step
    case PublishPush(p) => PushLoses(s.q, p, j);
    case DrainSwap => TakeAllLoses(s.q, j);
    case _ =>
  }

  /** Step `k` is a publish that finds the queue full with alert `j` at its front. */
  ghost predicate PushesOut(trace: seq<State>, steps: seq<Step>, k: int, j: nat)
    requires |trace| == |steps| + 1
  {
    0 <= k < |steps| && Overflows(trace[k], steps[k]) && Front(trace[k].q) == j
  }

  ghost predicate PushedOutBefore(trace: seq<State>, steps: seq<Step>, i: nat, j: nat)
    requires |trace| == |steps| + 1
  {
    exists k :: 0 <= k < i && PushesOut(trace, steps, k, j)
  }

  lemma PushedOutStep(trace: seq<State>, steps: seq<Step>, i: nat, j: nat)
    requires |trace| == |steps| + 1 && 0 < i
    ensures PushedOutBefore(trace, steps, i, j)
            <==> PushedOutBefore(trace, steps, i - 1, j) || PushesOut(trace, steps, i - 1, j)
  {
  }

  /** In every run, alert `j` is lost exactly if some publish found the queue full with `j` at its
      front. */
  lemma {:induction false} LostExactly(trace: seq<State>, steps: seq<Step>, i: nat, j: nat)
    requires Trace(trace, steps) && i < |trace|
    ensures Lost(trace[i].q, j) <==> PushedOutBefore(trace, steps, i, j)
  {
    if i > 0 {
      LostExactly(trace, steps, i - 1, j);
      PushedOutStep(trace, steps, i, j);
      EveryRunIsSound(trace, steps, i - 1);
      StepLoses(trace[i - 1], steps[i - 1], j);
    }
  }

  lemma {:induction false} QueueGrows(trace: seq<State>, steps: seq<Step>, h: nat, i: nat)
    requires Trace(trace, steps) && h <= i < |trace|
    ensures trace[h].q.taken <= trace[i].q.taken && trace[h].q.accepted <= trace[i].q.accepted
    ensures Front(trace[h].q) <= Front(trace[i].q)
    ensures forall m :: |trace[h].q.taken| <= m < |trace[i].q.taken| ==> trace[i].q.taken[m].index >= Front(trace[h].q)
  {
    if h < i {
      QueueGrows(trace, steps, h, i - 1);
      EveryRunIsSound(trace, steps, i - 1);
      StepLoses(trace[i - 1], steps[i - 1], 0);
    }
  }

  // ── All clients together ────────────────────────────────────────────────────

  lemma StepDrops(s: State, step: Step)
    requires QueueSound(s) && Enabled(s, step)
    ensures Next(s, step).q.dropped == s.q.dropped + if Overflows(s, step) then 1 else 0
  {
  }

  lemma {:induction false} DroppedExactly(trace: seq<State>, steps: seq<Step>, i: nat)
    requires Trace(trace, steps) && i < |trace|
    ensures trace[i].q.dropped == 0 <==> forall k {:trigger steps[k]} :: 0 <= k < i ==> !Overflows(trace[k], steps[k])
  {
    if i > 0 {
      DroppedExactly(trace, steps, i - 1);
      EveryRunIsSound(trace, steps, i - 1);
      StepDrops(trace[i - 1], steps[i - 1]);
    }
  }

  /** What was published is what was drained and what is still queued, in order, exactly as long
      as no publish has found the queue full. */
  lemma EverythingIsDrainedExactly(trace: seq<State>, steps: seq<Step>, i: nat)
    requires Trace(trace, steps) && i < |trace|
    ensures var s := trace[i];
      s.q.accepted == s.drained + s.local + s.q.items
      <==> forall k {:trigger steps[k]} :: 0 <= k < i ==> !Overflows(trace[k], steps[k])
  {
    DroppedExactly(trace, steps, i);
    EveryRunIsSound(trace, steps, i);
    var s := trace[i];
    if s.q.dropped == 0 {
      NoDropsMeansPrefix(s.q);
    } else {
      assert |s.q.accepted| > |Delivered(s.q)| + |s.q.items|;
    }
  }

  // ── One client ──────────────────────────────────────────────────────────────

  ghost predicate ReadySince(s: State, id: nat, base: nat) {
    && (id in s.sessions || id in s.gone)
    && id in s.base && s.base[id] == base
    && (id in s.sessions ==> s.sessions[id].ready)
  }

  lemma SendKeepsReady(c: SessionState, p: Payload)
    ensures Send(c, p).ready == c.ready
  {
  }

  lemma StepKeepsReady(s: State, step: Step, id: nat, base: nat)
    requires s.q.capacity >= 1 && Enabled(s, step) && ReadySince(s, id, base)
    ensures ReadySince(Next(s, step), id, base)
    ensures id in Next(s, step).sessions ==> id in s.sessions
  {
    if step.DrainSend? && id in s.sessions {
      SendKeepsReady(s.sessions[id], s.local[0]);
    }
  }

  /** From its handshake on, a client stays ready, and its stream starts where the drains were. */
  lemma {:induction false} HandshakeHolds(trace: seq<State>, steps: seq<Step>, h: nat, i: nat, id: nat)
    requires Trace(trace, steps) && h < |steps| && steps[h] == HandshakeDone(id, false) && h < i < |trace|
    ensures ReadySince(trace[i], id, |trace[h].q.taken|)
  {
    if i == h + 1 {
      assert trace[i] == Next(trace[h], steps[h]);
      EveryRunIsSound(trace, steps, h);
      assert |Delivered(trace[h].q)| == |trace[h].drained|;
    } else {
      HandshakeHolds(trace, steps, h, i - 1, id);
      StepKeepsReady(trace[i - 1], steps[i - 1], id, |trace[h].q.taken|);
    }
  }

  ghost predicate Queued(s: State, j: nat) {
    Front(s.q) <= j < |s.q.accepted|
  }

  /** Alert `j` is in the client's stream, or in the rest of the batch now being sent. */
  ghost predicate Reaches(s: State, id: nat, j: nat) {
    && id in s.sessions && id in s.base && j < |s.q.accepted|
    && exists m :: s.base[id] <= m < |s.q.taken| && CarriedAt(s, id, j, m)
  }

  ghost predicate CarriedAt(s: State, id: nat, j: nat, m: int)
    requires id in s.sessions && id in s.base && j < |s.q.accepted| && s.base[id] <= m < |s.q.taken|
  {
    var stream := Stream(s.sessions[id]) + s.local;
    && s.q.taken[m].index == j
    && m - s.base[id] < |stream| && stream[m - s.base[id]] == s.q.accepted[j]
  }

  /** What has been taken from the queue since the client became ready is on its way to it. */
  lemma TakenIsCarried(s: State, id: nat, m: nat)
    requires QueueSound(s) && SessionsSound(s) && id in s.sessions && s.sessions[id].ready
    requires id in s.base && s.base[id] <= m < |s.q.taken|
    ensures Reaches(s, id, s.q.taken[m].index)
  {
    assert Live(s, id);
    var b := s.base[id];
    assert Stream(s.sessions[id]) + s.local == Delivered(s.q)[b..] by {
      assert (s.drained + s.local)[b..] == s.drained[b..] + s.local;
    }
    assert Delivered(s.q)[m] == s.q.accepted[s.q.taken[m].index];
    assert CarriedAt(s, id, s.q.taken[m].index, m);
  }

  /** Every alert from number `a` on has reached the client or still can. */
  ghost predicate AllFrom(s: State, id: nat, a: nat) {
    forall j: nat :: a <= j < |s.q.accepted| ==> Queued(s, j) || Reaches(s, id, j)
  }

  /** No publish strictly between the two moments pushes alert `a` or a later one out. */
  ghost predicate NonePushedOut(trace: seq<State>, steps: seq<Step>, h: nat, i: nat, a: nat)
    requires |trace| == |steps| + 1 && i <= |steps|
  {
    forall k {:trigger steps[k]} :: h < k < i && Overflows(trace[k], steps[k]) ==> Front(trace[k].q) < a
  }

  /** The alert a push throws out is lost to everybody. */
  lemma PushedOutIsLost(trace: seq<State>, steps: seq<Step>, k: nat, i: nat, id: nat)
    requires Trace(trace, steps) && k < i < |trace| && Overflows(trace[k], steps[k])
    ensures var j := Front(trace[k].q); j < |trace[i].q.accepted| && !Queued(trace[i], j) && !Reaches(trace[i], id, j)
  {
    EveryRunIsSound(trace, steps, k);
    QueueGrows(trace, steps, k, i);
    assert PushesOut(trace, steps, k, Front(trace[k].q));
    LostExactly(trace, steps, i, Front(trace[k].q));
  }

  /** An alert that left the queue before the handshake does not reach the client. */
  lemma EarlierIsMissed(trace: seq<State>, steps: seq<Step>, h: nat, i: nat, id: nat, j: nat)
    requires Trace(trace, steps) && h < i < |trace| && steps[h] == HandshakeDone(id, false)
    requires j < Front(trace[h].q)
    ensures j < |trace[i].q.accepted| && !Queued(trace[i], j) && !Reaches(trace[i], id, j)
  {
    EveryRunIsSound(trace, steps, h);
    QueueGrows(trace, steps, h, i);
    HandshakeHolds(trace, steps, h, i, id);
  }

  /** Nothing that was still queued at step `h` is lost unless it is pushed out after it. */
  lemma LaterIsNotLost(trace: seq<State>, steps: seq<Step>, h: nat, i: nat, a: nat, j: nat)
    requires Trace(trace, steps) && h < i < |trace| && !Overflows(trace[h], steps[h])
    requires Front(trace[h].q) <= a <= j && NonePushedOut(trace, steps, h, i, a)
    ensures !Lost(trace[i].q, j)
  {
    if Lost(trace[i].q, j) {
      LostExactly(trace, steps, i, j);
      var k :| 0 <= k < i && PushesOut(trace, steps, k, j);
      PushingAdvances(trace, steps, k);
      if k < h {
        QueueGrows(trace, steps, k + 1, h);
      }
    }
  }

  lemma PushingAdvances(trace: seq<State>, steps: seq<Step>, k: nat)
    requires Trace(trace, steps) && k < |steps| && Overflows(trace[k], steps[k])
    ensures Front(trace[k + 1].q) > Front(trace[k].q)
  {
    EveryRunIsSound(trace, steps, k);
    StepLoses(trace[k], steps[k], 0);
  }

  /** What leaves the queue after the handshake, but was in it or not yet published then, is
      carried to the client. */
  lemma TakenLaterIsCarried(trace: seq<State>, steps: seq<Step>, h: nat, i: nat, id: nat, m: nat)
    requires Trace(trace, steps) && h < i < |trace| && steps[h] == HandshakeDone(id, false)
    requires id in trace[i].sessions && m < |trace[i].q.taken|
    requires trace[i].q.taken[m].index >= Front(trace[h].q)
    ensures Reaches(trace[i], id, trace[i].q.taken[m].index)
  {
    EveryRunIsSound(trace, steps, h);
    EveryRunIsSound(trace, steps, i);
    QueueGrows(trace, steps, h, i);
    HandshakeHolds(trace, steps, h, i, id);
    assert forall n :: 0 <= n < |trace[h].q.taken| ==> trace[h].q.taken[n] == trace[i].q.taken[n];
    TakenIsCarried(trace[i], id, m);
  }

  lemma LaterIsKept(trace: seq<State>, steps: seq<Step>, h: nat, i: nat, id: nat, a: nat, j: nat)
    requires Trace(trace, steps) && h < i < |trace| && steps[h] == HandshakeDone(id, false)
    requires id in trace[i].sessions && Front(trace[h].q) <= a <= j < |trace[i].q.accepted|
    requires NonePushedOut(trace, steps, h, i, a)
    ensures Queued(trace[i], j) || Reaches(trace[i], id, j)
  {
    LaterIsNotLost(trace, steps, h, i, a, j);
    if j < Front(trace[i].q) {
      var m: nat :| m < |trace[i].q.taken| && trace[i].q.taken[m].index == j;
      TakenLaterIsCarried(trace, steps, h, i, id, m);
    }
  }

  /** A connected client whose handshake completed at step `h` gets every alert from number `a`
      on, or still can, exactly if none of them had left the queue by then and no publish since
      has pushed one of them out. */
  lemma ClientGetsAllExactly(trace: seq<State>, steps: seq<Step>, h: nat, i: nat, id: nat, a: nat)
    requires Trace(trace, steps) && h < i < |trace| && steps[h] == HandshakeDone(id, false)
    requires id in trace[i].sessions
    ensures AllFrom(trace[i], id, a) <==> Front(trace[h].q) <= a && NonePushedOut(trace, steps, h, i, a)
  {
    if Front(trace[h].q) > a {
      EarlierIsMissed(trace, steps, h, i, id, a);
    } else if !NonePushedOut(trace, steps, h, i, a) {
      var k :| h < k < i && Overflows(trace[k], steps[k]) && Front(trace[k].q) >= a;
      PushedOutIsLost(trace, steps, k, i, id);
    } else {
      forall j: nat | a <= j < |trace[i].q.accepted| ensures Queued(trace[i], j) || Reaches(trace[i], id, j) {
        LaterIsKept(trace, steps, h, i, id, a, j);
      }
    }
  }

  /** Every alert published since its handshake reaches a connected client, or still can, exactly
      if no publish since found the queue full of alerts published since. */
  lemma SinceHandshakeExactly(trace: seq<State>, steps: seq<Step>, h: nat, i: nat, id: nat)
    requires Trace(trace, steps) && h < i < |trace| && steps[h] == HandshakeDone(id, false)
    requires id in trace[i].sessions
    ensures var a := |trace[h].q.accepted|;
      AllFrom(trace[i], id, a) <==> NonePushedOut(trace, steps, h, i, a)
  {
    EveryRunIsSound(trace, steps, h);
    ClientGetsAllExactly(trace, steps, h, i, id, |trace[h].q.accepted|);
  }

  /** Every alert published since it connected reaches the client, or still can, exactly if in
      addition none of them had left the queue when its handshake completed. */
  lemma SinceConnectExactly(trace: seq<State>, steps: seq<Step>, c: nat, h: nat, i: nat, id: nat)
    requires Trace(trace, steps) && c < h < i < |trace|
    requires steps[c] == Connect(id) && steps[h] == HandshakeDone(id, false) && id in trace[i].sessions
    ensures var a := |trace[c].q.accepted|;
      AllFrom(trace[i], id, a) <==> Front(trace[h].q) <= a && NonePushedOut(trace, steps, h, i, a)
  {
    ClientGetsAllExactly(trace, steps, h, i, id, |trace[c].q.accepted|);
  }

  // ── Who is connected ────────────────────────────────────────────────────────

  /** A handler that failed for this client. */
  predicate Drops(step: Step, id: nat) {
    (step.HandshakeDone? || step.WriteEnds?) && step.id == id && step.failed
  }

  ghost predicate ConnectedSince(steps: seq<Step>, c: nat, i: nat, id: nat)
    requires i <= |steps|
  {
    c < i && steps[c] == Connect(id) && forall m {:trigger steps[m]} :: c < m < i ==> !Drops(steps[m], id)
  }

  lemma StepConnects(s: State, step: Step, id: nat)
    requires s.q.capacity >= 1 && Enabled(s, step)
    ensures id in Next(s, step).sessions <==> step == Connect(id) || (id in s.sessions && !Drops(step, id))
    ensures id in s.gone || Drops(step, id) <==> id in Next(s, step).gone
    ensures id in s.sessions && Drops(step, id) ==> Received(Next(s, step), id) == Received(s, id)
  {
  }

  /** A client is in the session set exactly from its connect until a handshake or a write of its
      own fails. */
  lemma {:induction false} ConnectedExactly(trace: seq<State>, steps: seq<Step>, i: nat, id: nat)
    requires Trace(trace, steps) && i < |trace|
    ensures id in trace[i].sessions <==> exists c: nat :: ConnectedSince(steps, c, i, id)
  {
    if i > 0 {
      ConnectedExactly(trace, steps, i - 1, id);
      assert Moves(trace[i - 1], steps[i - 1], trace[i]);
      StepConnects(trace[i - 1], steps[i - 1], id);
      if steps[i - 1] == Connect(id) {
        assert ConnectedSince(steps, i - 1, i, id);
      } else if id in trace[i].sessions {
        var c: nat :| ConnectedSince(steps, c, i - 1, id);
        assert ConnectedSince(steps, c, i, id);
      } else if c: nat :| ConnectedSince(steps, c, i, id) {
        assert ConnectedSince(steps, c, i - 1, id);
      }
    }
  }

  lemma GoneStays(s: State, step: Step, id: nat)
    requires s.q.capacity >= 1 && Enabled(s, step) && SessionsSound(s) && id in s.gone
    ensures id in Next(s, step).gone && id !in Next(s, step).sessions
    ensures Received(Next(s, step), id) == Received(s, id)
  {
  }

  /** A failure drops its client for good: what it had received by then is all it ever gets. */
  lemma {:induction false} DroppedGetsNothingMore(trace: seq<State>, steps: seq<Step>, d: nat, i: nat, id: nat)
    requires Trace(trace, steps) && d < i < |trace| && Drops(steps[d], id)
    ensures id in trace[i].gone && id !in trace[i].sessions
    ensures Received(trace[i], id) == Received(trace[d], id)
  {
    assert Moves(trace[i - 1], steps[i - 1], trace[i]);
    if i == d + 1 {
      StepConnects(trace[d], steps[d], id);
    } else {
      DroppedGetsNothingMore(trace, steps, d, i - 1, id);
      EveryRunIsSound(trace, steps, i - 1);
      GoneStays(trace[i - 1], steps[i - 1], id);
    }
  }

  // ── When all is quiet ───────────────────────────────────────────────────────

  /** Every publish has posted, every drain has run, and the client's socket is idle. */
  predicate Quiet(s: State, id: nat) {
    s.pushers == 0 && s.posted == 0 && s.local == [] && id in s.sessions && s.sessions[id].inFlight == []
  }

  /** Alert `j` has been written to the client. */
  ghost predicate Got(s: State, id: nat, j: nat) {
    && id in s.sessions && id in s.base && j < |s.q.accepted|
    && exists m :: s.base[id] <= m < |s.q.taken| && WrittenAt(s, id, j, m)
  }

  ghost predicate WrittenAt(s: State, id: nat, j: nat, m: int)
    requires id in s.sessions && id in s.base && j < |s.q.accepted| && s.base[id] <= m < |s.q.taken|
  {
    && s.q.taken[m].index == j
    && m - s.base[id] < |Received(s, id)| && Received(s, id)[m - s.base[id]] == s.q.accepted[j]
  }

  lemma QuietMeansWritten(s: State, id: nat, j: nat)
    requires QueueSound(s) && SessionsSound(s) && Quiet(s, id)
    ensures !Queued(s, j) && (Reaches(s, id, j) <==> Got(s, id, j))
  {
    assert Live(s, id);
    var c := s.sessions[id];
    assert Stream(c) + s.local == c.written;
    if Reaches(s, id, j) {
      var m :| s.base[id] <= m < |s.q.taken| && CarriedAt(s, id, j, m);
      assert WrittenAt(s, id, j, m);
    }
    if Got(s, id, j) {
      var m :| s.base[id] <= m < |s.q.taken| && WrittenAt(s, id, j, m);
      assert CarriedAt(s, id, j, m);
    }
  }

  /** The documented promise at a quiet moment: the client has received every alert published
      since it connected, exactly if none of them was drained or dropped before its handshake
      completed and none was pushed out of a full queue after it. */
  lemma EveryAlertReceivedExactly(trace: seq<State>, steps: seq<Step>, c: nat, h: nat, i: nat, id: nat)
    requires Trace(trace, steps) && c < h < i < |trace|
    requires steps[c] == Connect(id) && steps[h] == HandshakeDone(id, false) && Quiet(trace[i], id)
    ensures var s, a := trace[i], |trace[c].q.accepted|;
      (forall j: nat :: a <= j < |s.q.accepted| ==> Got(s, id, j))
      <==> Front(trace[h].q) <= a && NonePushedOut(trace, steps, h, i, a)
  {
    var s, a := trace[i], |trace[c].q.accepted|;
    SinceConnectExactly(trace, steps, c, h, i, id);
    EveryRunIsSound(trace, steps, i);
    forall j: nat ensures !Queued(s, j) && (Reaches(s, id, j) <==> Got(s, id, j)) {
      QuietMeansWritten(s, id, j);
    }
  }

  // ── Both ways of missing an alert happen ────────────────────────────────────

  lemma TraceExtends(trace: seq<State>, steps: seq<Step>, step: Step, s: State)
    requires Trace(trace, steps) && Moves(trace[|steps|], step, s)
    ensures Trace(trace + [s], steps + [step])
  {
    var trace', steps' := trace + [s], steps + [step];
    forall i {:trigger steps'[i]} | 0 <= i < |steps'| ensures Moves(trace'[i], steps'[i], trace'[i + 1]) {
      if i < |steps| {
        assert Moves(trace[i], steps[i], trace[i + 1]);
      }
    }
  }

  const READY_SESSION := NewSession.(ready := true)

  /** Client 0 is ready and idle, and `n` alerts have been published but not drained. */
  function Backlog(p: Payload, n: nat): State {
    State(Log(MAX_QUEUE, DropOldestWhenFull, Repeat(p, n), 0, false, Repeat(p, n), []), n, 0, [], [],
          map[0 := READY_SESSION], map[], map[0 := 0])
  }

  /** A client connects and its handshake completes. */
  lemma ClientReady(p: Payload) returns (trace: seq<State>, steps: seq<Step>)
    ensures Trace(trace, steps) && steps == [Connect(0), HandshakeDone(0, false)]
    ensures trace[|steps|] == Backlog(p, 0) && trace[1].q.accepted == []
  {
    var s1 := Init.(sessions := map[0 := NewSession]);
    trace, steps := [Init], [];
    TraceExtends(trace, steps, Connect(0), s1);
    trace, steps := trace + [s1], steps + [Connect(0)];
    TraceExtends(trace, steps, HandshakeDone(0, false), Backlog(p, 0));
    trace, steps := trace + [Backlog(p, 0)], steps + [HandshakeDone(0, false)];
  }

  lemma {:induction false} BacklogGrows(p: Payload, n: nat) returns (trace: seq<State>, steps: seq<Step>)
    requires n <= MAX_QUEUE
    ensures Trace(trace, steps) && |steps| == n + 2 && trace[|steps|] == Backlog(p, n)
    ensures steps[0] == Connect(0) && steps[1] == HandshakeDone(0, false) && trace[1].q.accepted == []
    ensures forall k {:trigger steps[k]} :: 2 <= k < |steps| ==> steps[k] == PublishPush(p)
  {
    if n == 0 {
      trace, steps := ClientReady(p);
    } else {
      trace, steps := BacklogGrows(p, n - 1);
      TraceExtends(trace, steps, PublishPush(p), Backlog(p, n));
      trace, steps := trace + [Backlog(p, n)], steps + [PublishPush(p)];
    }
  }

  /** A client is ready before the first alert; 257 alerts are published before a drain gets to
      run; the first of them is lost. */
  lemma OverflowLosesAlert(p: Payload) returns (trace: seq<State>, steps: seq<Step>)
    ensures Trace(trace, steps) && |steps| == 259
    ensures steps[0] == Connect(0) && steps[1] == HandshakeDone(0, false) && trace[1].q.accepted == []
    ensures forall k {:trigger steps[k]} :: 2 <= k < |steps| ==> steps[k] == PublishPush(p)
    ensures var s := trace[|steps|];
      && 0 in s.sessions && s.sessions[0].ready && |s.q.accepted| == 257
      && !Queued(s, 0) && !Reaches(s, 0, 0)
  {
    trace, steps := BacklogGrows(p, MAX_QUEUE);
    var s := Next(trace[|steps|], PublishPush(p));
    TraceExtends(trace, steps, PublishPush(p), s);
    trace, steps := trace + [s], steps + [PublishPush(p)];
    PushedOutIsLost(trace, steps, 258, 259, 0);
  }

  /** A client is connected all the time and the queue never overflows, but the one alert is
      drained before its handshake completes: it gets nothing. */
  lemma HandshakeGapMissesAlert(p: Payload) returns (trace: seq<State>, steps: seq<Step>)
    ensures Trace(trace, steps)
    ensures steps == [Connect(0), PublishPush(p), PublishPost, DrainSwap, DrainSend, HandshakeDone(0, false)]
    ensures var s := trace[|steps|];
      && s.q.accepted == s.drained == [p] && s.q.dropped == 0
      && 0 in s.sessions && s.sessions[0].ready && Stream(s.sessions[0]) == []
      && Quiet(s, 0) && !Got(s, 0, 0)
  {
    trace, steps := AlertWaits(p);
    var s := trace[|steps|];
    var log := TakeFront(s.q);
    var s1 := s.(q := log, posted := 0, local := [p]);
    assert TakeAll(log) == log;
    TraceExtends(trace, steps, DrainSwap, s1);
    trace, steps := trace + [s1], steps + [DrainSwap];
    var s2 := s1.(local := [], drained := [p]);
    assert s2.sessions == map id | id in s1.sessions :: Send(s1.sessions[id], p);
    TraceExtends(trace, steps, DrainSend, s2);
    trace, steps := trace + [s2], steps + [DrainSend];
    var s3 := s2.(sessions := map[0 := READY_SESSION], base := map[0 := 1]);
    TraceExtends(trace, steps, HandshakeDone(0, false), s3);
    trace, steps := trace + [s3], steps + [HandshakeDone(0, false)];
  }

  lemma AlertWaits(p: Payload) returns (trace: seq<State>, steps: seq<Step>)
    ensures Trace(trace, steps) && steps == [Connect(0), PublishPush(p), PublishPost]
    ensures trace[|steps|] == State(Log(MAX_QUEUE, DropOldestWhenFull, [p], 0, false, [p], []), 0, 1, [], [],
                                    map[0 := NewSession], map[], map[])
  {
    var s1 := Init.(sessions := map[0 := NewSession]);
    var s2 := s1.(q := Log(MAX_QUEUE, DropOldestWhenFull, [p], 0, false, [p], []), pushers := 1);
    var s3 := s2.(pushers := 0, posted := 1);
    trace, steps := [Init], [];
    TraceExtends(trace, steps, Connect(0), s1);
    trace, steps := trace + [s1], steps + [Connect(0)];
    TraceExtends(trace, steps, PublishPush(p), s2);
    trace, steps := trace + [s2], steps + [PublishPush(p)];
    TraceExtends(trace, steps, PublishPost, s3);
    trace, steps := trace + [s3], steps + [PublishPost];
  }
}
