/**
  The WebSocket alert publisher.  Any thread may publish: it pushes onto a bounded queue and
  posts a drain.  One io thread runs the drains and all session handlers, one at a time; a
  drain swaps the queue out under its lock and then sends every payload to every session.
 */
module AlertPublisher {
  import opened QueueLog
  import Throttle
  import opened Wrappers

  type Payload = string

  const MAX_QUEUE := 256
  const WARN_INTERVAL := 1_000_000_000   // one second, in nanoseconds

  // ── One session ─────────────────────────────────────────────────────────────

  /** `inFlight` is what has been given to async_write and not yet completed, `written` what
      has been completed; neither is a field of the program. */
  datatype SessionState = SessionState(
    ready: bool,
    writing: bool,
    pending: seq<Payload>,
    inFlight: seq<Payload>,
    written: seq<Payload>)

  const NewSession := SessionState(false, false, [], [], [])

  function DoWrite(s: SessionState): SessionState {
    if s.pending == [] then s.(writing := false)
    else s.(writing := true, pending := s.pending[1..], inFlight := s.inFlight + [s.pending[0]])
  }

  function Send(s: SessionState, p: Payload): SessionState {
    if !s.ready then s
    else
      var queued := s.(pending := s.pending + [p]);
      if s.writing then queued else DoWrite(queued)
  }

  function WriteDone(s: SessionState): SessionState
    requires s.inFlight != []
  {
    DoWrite(s.(inFlight := s.inFlight[1..], written := s.written + [s.inFlight[0]]))
  }

  function SendAll(s: SessionState, ps: seq<Payload>): SessionState {
    if ps == [] then s else Send(SendAll(s, ps[..|ps| - 1]), ps[|ps| - 1])
  }

  /** Never two writes in flight, `writing` says whether there is one, and nothing waits
      beside an idle socket. */
  ghost predicate Sound(s: SessionState) {
    && |s.inFlight| <= 1
    && (s.writing <==> s.inFlight != [])
    && (!s.writing ==> s.pending == [])
    && (!s.ready ==> s.written + s.inFlight + s.pending == [])
  }

  /** Everything the session has accepted, in order. */
  function Stream(s: SessionState): seq<Payload> {
    s.written + s.inFlight + s.pending
  }

  lemma SendExtendsStream(s: SessionState, p: Payload)
    requires Sound(s)
    ensures Sound(Send(s, p)) && Send(s, p).ready == s.ready
    ensures Stream(Send(s, p)) == if s.ready then Stream(s) + [p] else Stream(s)
    ensures Send(s, p).written == s.written
  {
  }

  /** The payloads have joined a ready session's stream in order, at its end, and no write has
      completed meanwhile; a session that is not ready has ignored them. */
  ghost predicate Extends(s: SessionState, s': SessionState, ps: seq<Payload>) {
    && s'.ready == s.ready && s'.written == s.written
    && Stream(s') == if s.ready then Stream(s) + ps else Stream(s)
  }

  lemma AppendedLast(stream: seq<Payload>, ps: seq<Payload>, p: Payload)
    ensures stream + ps + [p] == stream + (ps + [p])
  {
  }

  lemma SendExtends(s: SessionState, s': SessionState, ps: seq<Payload>, p: Payload)
    requires Sound(s') && Extends(s, s', ps)
    ensures Sound(Send(s', p)) && Extends(s, Send(s', p), ps + [p])
  {
    SendExtendsStream(s', p);
    AppendedLast(Stream(s), ps, p);
  }

  lemma {:induction false} SendAllExtends(s: SessionState, ps: seq<Payload>)
    requires Sound(s)
    ensures Sound(SendAll(s, ps)) && Extends(s, SendAll(s, ps), ps)
  {
    if ps == [] {
      assert Stream(s) + ps == Stream(s);
    } else {
      var init, p := ps[..|ps| - 1], ps[|ps| - 1];
      SendAllExtends(s, init);
      SendExtends(s, SendAll(s, init), init, p);
      assert init + [p] == ps;
    }
  }

  lemma WriteDoneKeepsStream(s: SessionState)
    requires Sound(s) && s.inFlight != []
    ensures Sound(WriteDone(s)) && WriteDone(s).ready == s.ready
    ensures Stream(WriteDone(s)) == Stream(s)
    ensures |WriteDone(s).written| == |s.written| + 1
  {
  }

  class Session {
    var ready: bool
    var writing: bool
    var pending: seq<Payload>
    ghost var inFlight: seq<Payload>
    ghost var written: seq<Payload>

    ghost function View(): SessionState
      reads this
    {
      SessionState(ready, writing, pending, inFlight, written)
    }

    ghost predicate Valid()
      reads this
    {
      Sound(View())
    }

    constructor ()
      ensures Valid() && View() == NewSession
    {
      ready, writing, pending, inFlight, written := false, false, [], [], [];
    }

    /** Completion of async_accept; false asks the owner to drop the session. */
    method Accepted(failed: bool) returns (keep: bool)
      requires Valid() && !ready
      modifies this`ready
      ensures Valid() && keep == !failed
      ensures View() == old(View()).(ready := !failed)
    {
      if failed {
        return false;
      }
      ready := true;
      return true;
    }

    method SendPayload(p: Payload)
      requires Valid()
      modifies this
      ensures Valid() && View() == Send(old(View()), p)
    {
      SendExtendsStream(View(), p);
      if !ready {
        return;
      }
      pending := pending + [p];
      if !writing {
        StartWrite();
      }
    }

    method StartWrite()
      modifies this
      ensures View() == DoWrite(old(View()))
    {
      if |pending| == 0 {
        writing := false;
        return;
      }
      writing := true;
      var msg := pending[0];
      pending := pending[1..];
      inFlight := inFlight + [msg];
    }

    /** Completion of async_write; false asks the owner to drop the session. */
    method WriteCompleted(failed: bool) returns (keep: bool)
      requires Valid() && inFlight != []
      modifies this
      ensures keep == !failed
      ensures failed ==> View() == old(View()).(inFlight := [])
      ensures !failed ==> Valid() && View() == WriteDone(old(View()))
    {
      WriteDoneKeepsStream(View());
      ghost var msg := inFlight[0];
      inFlight := inFlight[1..];
      if failed {
        return false;
      }
      written := written + [msg];
      StartWrite();
      return true;
    }
  }

  // ── The publisher object ────────────────────────────────────────────────────

  /** The warnings given for these overflows, and the time of the last one; that clock starts ten
      seconds in the past. */
  function Warnings(startedAt: int, overflows: seq<int>): (seq<int>, int) {
    if overflows == [] then ([], startedAt - 10 * WARN_INTERVAL)
    else
      var n := |overflows| - 1;
      var (given, last) := Warnings(startedAt, overflows[..n]);
      if overflows[n] - last >= WARN_INTERVAL then (given + [overflows[n]], overflows[n]) else (given, last)
  }

  lemma WarningsAppend(startedAt: int, overflows: seq<int>, now: int)
    ensures var (given, last) := Warnings(startedAt, overflows);
      Warnings(startedAt, overflows + [now])
      == if now - last >= WARN_INTERVAL then (given + [now], now) else (given, last)
  {
    assert (overflows + [now])[..|overflows|] == overflows;
  }

  class Publisher {
    var queue: seq<Payload>
    var lastDropWarn: int
    var postedDrains: nat            // drains handed to the io context and not yet run
    var sessions: set<Session>

    ghost var dropped: nat
    ghost var published: seq<Payload>
    ghost var taken: seq<Taken>
    ghost const startedAt: int
    ghost var overflows: seq<int>    // when the queue was found full
    ghost var warnings: seq<int>     // when that was logged

    ghost function View(): Log<Payload>
      reads this
    {
      Log(MAX_QUEUE, DropOldestWhenFull, queue, dropped, false, published, taken)
    }

    ghost predicate Valid()
      reads this, sessions
    {
      && Inv(View())
      && WarnedRight()
      && forall s :: s in sessions ==> s.Valid()
    }

    constructor (now: int)
      ensures Valid() && View() == New(MAX_QUEUE, DropOldestWhenFull) && sessions == {} && postedDrains == 0
    {
      queue, lastDropWarn, postedDrains, sessions := [], now - 10 * WARN_INTERVAL, 0, {};
      dropped, published, taken := 0, [], [];
      startedAt, overflows, warnings := now, [], [];
    }

    /** `now` is the steady clock, read only if the queue is full. */
    method Publish(payload: Payload, now: int) returns (warned: bool)
      requires Valid()
      modifies this
      ensures Valid() && View() == QueueLog.Push(old(View()), payload).1
      ensures postedDrains == old(postedDrains) + 1
      ensures sessions == old(sessions)
      ensures overflows == if |old(queue)| >= MAX_QUEUE then old(overflows) + [now] else old(overflows)
      ensures warnings == if warned then old(warnings) + [now] else old(warnings)
    {
      ghost var q := View();
      PushKeeps(q, payload);
      warned := false;
      if |queue| >= MAX_QUEUE {
        warned := DropOldest(now);
      }
      Enqueue(payload);
      assert View() == QueueLog.Push(q, payload).1;
      postedDrains := postedDrains + 1;
    }

    method Enqueue(payload: Payload)
      modifies this`queue, this`published
      ensures View() == Append(old(View()), payload)
    {
      queue := queue + [payload];
      published := published + [payload];
    }

    /** The warnings given are the ones the overflows so far call for. */
    ghost predicate WarnedRight()
      reads this
    {
      (warnings, lastDropWarn) == Warnings(startedAt, overflows)
    }

    /** The overflow branch of publish(). */
    method DropOldest(now: int) returns (warned: bool)
      requires queue != [] && WarnedRight()
      modifies this`queue, this`dropped, this`lastDropWarn, this`overflows, this`warnings
      ensures View() == DropFront(old(View())) && WarnedRight()
      ensures overflows == old(overflows) + [now]
      ensures warned <==> now - old(lastDropWarn) >= WARN_INTERVAL
      ensures warnings == if warned then old(warnings) + [now] else old(warnings)
    {
      WarningsAppend(startedAt, overflows, now);
      queue, dropped := queue[1..], dropped + 1;
      overflows := overflows + [now];
      warned := false;
      if now - lastDropWarn >= WARN_INTERVAL {
        warned := true;
        lastDropWarn := now;
        warnings := warnings + [now];
      }
    }

    /** One posted drain, run on the io thread. */
    method DoDrain()
      requires Valid() && postedDrains > 0
      modifies this, sessions
      ensures Valid() && View() == QueueLog.TakeAll(old(View()))
      ensures sessions == old(sessions) && postedDrains == old(postedDrains) - 1
      ensures overflows == old(overflows) && warnings == old(warnings)
      ensures forall s :: s in sessions ==> s.View() == SendAll(old(s.View()), old(queue))
      ensures forall s :: s in sessions ==> Extends(old(s.View()), s.View(), old(queue))
    {
      postedDrains := postedDrains - 1;
      var local := queue;
      TakeAllDeliversQueue(View());
      taken := TakeAll(View()).taken;
      queue := [];
      SendBatch(sessions, local);
    }

    /** The outer loop of the drain. */
    static method SendBatch(sessions: set<Session>, local: seq<Payload>)
      requires forall s :: s in sessions ==> s.Valid()
      modifies sessions
      ensures forall s :: s in sessions ==> s.Valid() && s.View() == SendAll(old(s.View()), local)
      ensures forall s :: s in sessions ==> Extends(old(s.View()), s.View(), local)
    {
      for i := 0 to |local|
        invariant forall s :: s in sessions ==> s.Valid() && s.View() == SendAll(old(s.View()), local[..i])
      {
        SendToAll(sessions, local[i]);
        assert local[..i + 1][..i] == local[..i];
      }
      assert local[..|local|] == local;
      forall s | s in sessions ensures Extends(old(s.View()), s.View(), local) {
        SendAllExtends(old(s.View()), local);
      }
    }

    static method SendToAll(sessions: set<Session>, p: Payload)
      requires forall s :: s in sessions ==> s.Valid()
      modifies sessions
      ensures forall s :: s in sessions ==> s.Valid() && s.View() == Send(old(s.View()), p)
    {
      var rest := sessions;
      while rest != {}
        invariant rest <= sessions
        invariant forall s :: s in rest ==> s.Valid() && s.View() == old(s.View())
        invariant forall s :: s in sessions - rest ==> s.Valid() && s.View() == Send(old(s.View()), p)
      {
        var s :| s in rest;
        s.SendPayload(p);
        rest := rest - {s};
      }
    }

    method AddSession(s: Session)
      requires Valid() && s.View() == NewSession
      modifies this`sessions
      ensures Valid() && sessions == old(sessions) + {s}
    {
      sessions := sessions + {s};
    }

    /** Completion of async_accept on the acceptor: the new client joins the set. */
    method AcceptClient() returns (s: Session)
      requires Valid()
      modifies this`sessions
      ensures Valid() && fresh(s) && s.View() == NewSession && sessions == old(sessions) + {s}
    {
      s := new Session();
      AddSession(s);
    }

    /** Everything but `s` is in order: a session whose write has just failed is not. */
    ghost predicate ValidBut(s: Session)
      reads this, sessions
    {
      && Inv(View())
      && WarnedRight()
      && forall t :: t in sessions && t != s ==> t.Valid()
    }

    /** Only the session's address is given: look for it and erase the first match. */
    method RemoveSession(s: Session)
      requires ValidBut(s)
      modifies this`sessions
      ensures Valid() && sessions == old(sessions) - {s}
    {
      var rest := sessions;
      while rest != {}
        invariant rest <= sessions == old(sessions)
        invariant s in sessions ==> s in rest
      {
        var it :| it in rest;
        if it == s {
          sessions := sessions - {it};
          return;
        }
        rest := rest - {it};
      }
      assert sessions - {s} == sessions;
    }

    /** The handshake's completion handler. */
    method OnHandshake(s: Session, failed: bool)
      requires Valid() && s in sessions && !s.ready
      modifies this`sessions, s`ready
      ensures Valid() && sessions == if failed then old(sessions) - {s} else old(sessions)
      ensures s.View() == old(s.View()).(ready := !failed)
    {
      var keep := s.Accepted(failed);
      if !keep {
        RemoveSession(s);
      }
    }

    /** The write's completion handler.  A failed write leaves the session out of order; dropping
        it puts the publisher right again. */
    method OnWritten(s: Session, failed: bool)
      requires Valid() && s in sessions && s.inFlight != []
      modifies this`sessions, s
      ensures Valid() && sessions == if failed then old(sessions) - {s} else old(sessions)
      ensures s.View() == if failed then old(s.View()).(inFlight := []) else WriteDone(old(s.View()))
    {
      var keep := s.WriteCompleted(failed);
      if !keep {
        RemoveSession(s);
      }
    }
  }

  lemma {:induction false} WarningsAreThrottled(startedAt: int, overflows: seq<int>)
    ensures var seed := Some(startedAt - 10 * WARN_INTERVAL);
      && Warnings(startedAt, overflows).0 == Throttle.PickedTimes(seed, overflows, WARN_INTERVAL)
      && Some(Warnings(startedAt, overflows).1)
         == Throttle.LastTime(seed, overflows, Throttle.Picks(seed, overflows, WARN_INTERVAL))
  {
    if overflows != [] {
      var n := |overflows| - 1;
      WarningsAreThrottled(startedAt, overflows[..n]);
      Throttle.PickedTimesAppend(Some(startedAt - 10 * WARN_INTERVAL), overflows[..n], overflows[n], WARN_INTERVAL);
      assert overflows[..n] + [overflows[n]] == overflows;
    }
  }

  /** Queue-full warnings are at least a second apart, and an overflow goes unreported only in
      the second after a report. */
  lemma WarningsAreSpaced(startedAt: int, overflows: seq<int>)
    ensures var seed := Some(startedAt - 10 * WARN_INTERVAL);
      var p := Throttle.Picks(seed, overflows, WARN_INTERVAL);
      && Warnings(startedAt, overflows).0 == Throttle.TimesAt(overflows, p)
      && Throttle.Spaced(Warnings(startedAt, overflows).0, 1_000_000_000)
      && forall i: nat :: i < |overflows| && i !in p ==> Throttle.HeldBack(seed, overflows, p, i, WARN_INTERVAL)
  {
    var seed := Some(startedAt - 10 * WARN_INTERVAL);
    WarningsAreThrottled(startedAt, overflows);
    Throttle.GreedySpaces(seed, overflows, WARN_INTERVAL);
    forall i: nat | i < |overflows| && i !in Throttle.Picks(seed, overflows, WARN_INTERVAL)
      ensures Throttle.HeldBack(seed, overflows, Throttle.Picks(seed, overflows, WARN_INTERVAL), i, WARN_INTERVAL)
    {
      Throttle.GreedyIsComplete(seed, overflows, WARN_INTERVAL, i);
    }
  }

  // ── The protocol: publishers, the io thread, and any number of clients ──────

  /** `drained` has been sent on to the sessions; `local` is the rest of the batch the running
      drain swapped out.  `base[id]` is how much had been drained when session `id` became
      ready.  Dropped sessions are kept in `gone` to say what their clients had seen. */
  datatype State = State(
    q: Log<Payload>,
    pushers: nat,                      // publishers between their push and their post
    posted: nat,                       // drains posted and not yet started
    local: seq<Payload>,
    drained: seq<Payload>,
    sessions: map<nat, SessionState>,
    gone: map<nat, SessionState>,
    base: map<nat, nat>)

  datatype Step =
    | PublishPush(p: Payload)
    | PublishPost
    | DrainSwap
    | DrainSend
    | Connect(id: nat)
    | HandshakeDone(id: nat, failed: bool)
    | WriteEnds(id: nat, failed: bool)

  const Init := State(New(MAX_QUEUE, DropOldestWhenFull), 0, 0, [], [], map[], map[], map[])

  /** Handlers of the io thread run one at a time: none starts while a drain is sending. */
  ghost predicate Enabled(s: State, step: Step) {
    match step
    case PublishPush(p) => true
    case PublishPost => s.pushers > 0
    case DrainSwap => s.local == [] && s.posted > 0
    case DrainSend => s.local != []
    case Connect(id) => s.local == [] && id !in s.sessions && id !in s.gone
    case HandshakeDone(id, failed) => s.local == [] && id in s.sessions && !s.sessions[id].ready
    case WriteEnds(id, failed) => s.local == [] && id in s.sessions && s.sessions[id].inFlight != []
  }

  function Drop(s: State, id: nat): State
    requires id in s.sessions
  {
    s.(sessions := s.sessions - {id}, gone := s.gone[id := s.sessions[id]])
  }

  function Next(s: State, step: Step): State
    requires s.q.capacity >= 1
    requires Enabled(s, step)
  {
    match step
    case PublishPush(p) => s.(q := QueueLog.Push(s.q, p).1, pushers := s.pushers + 1)
    case PublishPost => s.(pushers := s.pushers - 1, posted := s.posted + 1)
    case DrainSwap => s.(q := QueueLog.TakeAll(s.q), posted := s.posted - 1, local := s.q.items)
    case DrainSend =>
      s.(local := s.local[1..], drained := s.drained + [s.local[0]],
         sessions := map id | id in s.sessions :: Send(s.sessions[id], s.local[0]))
    case Connect(id) => s.(sessions := s.sessions[id := NewSession])
    case HandshakeDone(id, failed) =>
      if failed then Drop(s, id)
      else s.(sessions := s.sessions[id := s.sessions[id].(ready := true)], base := s.base[id := |s.drained|])
    case WriteEnds(id, failed) =>
      if failed then Drop(s, id) else s.(sessions := s.sessions[id := WriteDone(s.sessions[id])])
  }

  /** The session carries exactly what was drained since it became ready. */
  ghost predicate Live(s: State, id: nat)
    requires id in s.sessions
  {
    && Sound(s.sessions[id])
    && (s.sessions[id].ready ==>
          id in s.base && s.base[id] <= |s.drained| && Stream(s.sessions[id]) == s.drained[s.base[id]..])
  }

  /** A dropped session's client has seen an unbroken stretch of the drained stream. */
  ghost predicate Past(s: State, id: nat)
    requires id in s.gone
  {
    && (s.gone[id].ready ==>
          && id in s.base && s.base[id] + |s.gone[id].written| <= |s.drained|
          && s.gone[id].written == s.drained[s.base[id]..s.base[id] + |s.gone[id].written|])
    && (!s.gone[id].ready ==> s.gone[id].written == [])
  }

  ghost predicate QueueSound(s: State) {
    && Inv(s.q) && s.q.capacity == MAX_QUEUE && s.q.policy == DropOldestWhenFull
    && Delivered(s.q) == s.drained + s.local
    && (s.q.items != [] ==> s.posted + s.pushers > 0)
  }

  ghost predicate SessionsSound(s: State) {
    && (forall id :: id in s.sessions ==> id !in s.gone && Live(s, id))
    && (forall id :: id in s.gone ==> Past(s, id))
  }

  lemma StepKeepsQueue(s: State, step: Step)
    requires QueueSound(s) && Enabled(s, step)
    ensures QueueSound(Next(s, step))
  {
    match step
    case PublishPush(p) => PushKeepsDelivered(s.q, p);
    case DrainSwap => TakeAllDeliversQueue(s.q);
    case DrainSend => assert s.drained + s.local == s.drained + [s.local[0]] + s.local[1..];
    case _ =>
  }

  lemma SendKeepsLive(s: State, id: nat)
    requires s.q.capacity >= 1 && Enabled(s, DrainSend) && id in s.sessions && Live(s, id)
    ensures id in Next(s, DrainSend).sessions && Live(Next(s, DrainSend), id)
  {
    SendExtendsStream(s.sessions[id], s.local[0]);
    if s.sessions[id].ready {
      AppendTail(s.drained, s.base[id], s.local[0]);
    }
  }

  lemma AppendTail(drained: seq<Payload>, from: nat, p: Payload)
    requires from <= |drained|
    ensures (drained + [p])[from..] == drained[from..] + [p]
  {
  }

  lemma AppendKeepsStretch(drained: seq<Payload>, from: nat, to: nat, p: Payload)
    requires from <= to <= |drained|
    ensures (drained + [p])[from..to] == drained[from..to]
  {
  }

  lemma SendKeepsPast(s: State, id: nat)
    requires s.q.capacity >= 1 && Enabled(s, DrainSend) && id in s.gone && Past(s, id)
    ensures id in Next(s, DrainSend).gone && Past(Next(s, DrainSend), id)
  {
    if s.gone[id].ready {
      AppendKeepsStretch(s.drained, s.base[id], s.base[id] + |s.gone[id].written|, s.local[0]);
    }
  }

  lemma SendKeepsSessions(s: State)
    requires SessionsSound(s) && s.q.capacity >= 1 && Enabled(s, DrainSend)
    ensures SessionsSound(Next(s, DrainSend))
  {
    var s' := Next(s, DrainSend);
    forall id | id in s'.sessions ensures id !in s'.gone && Live(s', id) {
      SendKeepsLive(s, id);
    }
    forall id | id in s'.gone ensures Past(s', id) {
      SendKeepsPast(s, id);
    }
  }

  lemma DropKeepsSessions(s: State, id: nat)
    requires SessionsSound(s) && id in s.sessions
    ensures SessionsSound(Drop(s, id))
  {
    var s' := Drop(s, id);
    assert Live(s, id);
    var gone := s.sessions[id];
    if gone.ready {
      assert gone.written == Stream(gone)[..|gone.written|];
    }
    forall i | i in s'.sessions ensures i !in s'.gone && Live(s', i) {
      assert Live(s, i);
    }
    forall i | i in s'.gone ensures Past(s', i) {
      assert i != id ==> Past(s, i);
    }
  }

  /** Steps that touch no session but `id`, and do not drain. */
  lemma OneSessionChanges(s: State, s': State, id: nat)
    requires SessionsSound(s) && s'.drained == s.drained && s'.gone == s.gone && id !in s.gone
    requires id in s'.sessions && Live(s', id)
    requires s'.sessions.Keys == s.sessions.Keys + {id}
    requires forall i :: i in s.sessions && i != id ==> s'.sessions[i] == s.sessions[i]
    requires forall i :: i in s.base && i != id ==> i in s'.base && s'.base[i] == s.base[i]
    ensures SessionsSound(s')
  {
    forall i | i in s'.sessions ensures i !in s'.gone && Live(s', i) {
      if i != id {
        assert Live(s, i);
      }
    }
    forall i | i in s'.gone ensures Past(s', i) {
      assert Past(s, i);
    }
  }

  lemma NoSessionChanges(s: State, s': State)
    requires SessionsSound(s)
    requires s'.drained == s.drained && s'.gone == s.gone && s'.sessions == s.sessions && s'.base == s.base
    ensures SessionsSound(s')
  {
    forall i | i in s'.sessions ensures i !in s'.gone && Live(s', i) {
      assert Live(s, i);
    }
    forall i | i in s'.gone ensures Past(s', i) {
      assert Past(s, i);
    }
  }

  lemma HandshakeKeepsSessions(s: State, id: nat)
    requires SessionsSound(s) && s.q.capacity >= 1 && Enabled(s, HandshakeDone(id, false))
    ensures SessionsSound(Next(s, HandshakeDone(id, false)))
  {
    assert Live(s, id);
    var s' := Next(s, HandshakeDone(id, false));
    assert Stream(s.sessions[id]) == [];
    assert Stream(s'.sessions[id]) == s'.drained[s'.base[id]..];
    OneSessionChanges(s, s', id);
  }

  lemma WriteKeepsSessions(s: State, id: nat)
    requires SessionsSound(s) && s.q.capacity >= 1 && Enabled(s, WriteEnds(id, false))
    ensures SessionsSound(Next(s, WriteEnds(id, false)))
  {
    assert Live(s, id);
    WriteDoneKeepsStream(s.sessions[id]);
    OneSessionChanges(s, Next(s, WriteEnds(id, false)), id);
  }

  lemma StepKeepsSessions(s: State, step: Step)
    requires SessionsSound(s) && s.q.capacity >= 1 && Enabled(s, step)
    ensures SessionsSound(Next(s, step))
  {
    match step
    case PublishPush(p) => NoSessionChanges(s, Next(s, step));
    case PublishPost => NoSessionChanges(s, Next(s, step));
    case DrainSwap => NoSessionChanges(s, Next(s, step));
    case DrainSend => SendKeepsSessions(s);
    case Connect(id) => OneSessionChanges(s, Next(s, step), id);
    case HandshakeDone(id, failed) =>
      if failed {
        DropKeepsSessions(s, id);
      } else {
        HandshakeKeepsSessions(s, id);
      }
    case WriteEnds(id, failed) =>
      if failed {
        DropKeepsSessions(s, id);
      } else {
        WriteKeepsSessions(s, id);
      }
  }

  // ── Runs ────────────────────────────────────────────────────────────────────

  ghost predicate Moves(s: State, step: Step, s': State) {
    s.q.capacity >= 1 && Enabled(s, step) && s' == Next(s, step)
  }

  ghost predicate Trace(trace: seq<State>, steps: seq<Step>) {
    && |trace| == |steps| + 1
    && trace[0] == Init
    && forall i {:trigger steps[i]} :: 0 <= i < |steps| ==> Moves(trace[i], steps[i], trace[i + 1])
  }

  lemma InitIsSound()
    ensures QueueSound(Init) && SessionsSound(Init)
  {
  }

  lemma {:induction false} EveryRunIsSound(trace: seq<State>, steps: seq<Step>, i: nat)
    requires Trace(trace, steps) && i < |trace|
    ensures QueueSound(trace[i]) && SessionsSound(trace[i])
  {
    if i == 0 {
      InitIsSound();
    } else {
      var s, step := trace[i - 1], steps[i - 1];
      EveryRunIsSound(trace, steps, i - 1);
      assert trace[i] == Next(s, step);
      StepKeepsQueue(s, step);
      StepKeepsSessions(s, step);
    }
  }

  /** No alert is stranded in the queue, the queue is bounded, and every alert published is
      drained, being drained, dropped or queued. */
  lemma NoAlertStranded(trace: seq<State>, steps: seq<Step>, i: nat)
    requires Trace(trace, steps) && i < |trace|
    ensures var s := trace[i];
      && (s.q.items != [] ==> s.posted > 0 || s.pushers > 0)
      && |s.q.items| <= 256
      && |s.q.accepted| == |s.drained| + |s.local| + s.q.dropped + |s.q.items|
      && s.q.items == s.q.accepted[|s.q.accepted| - |s.q.items|..]
      && PickedAt(s.drained + s.local, s.q.accepted, TakenIndices(s.q))
  {
    EveryRunIsSound(trace, steps, i);
  }

  /** For a ready session: written, in flight and pending together are the drained history
      since it became ready, with at most one write in flight and none owed to an idle socket. */
  lemma SessionCarriesDrainedStream(trace: seq<State>, steps: seq<Step>, i: nat, id: nat)
    requires Trace(trace, steps) && i < |trace|
    requires id in trace[i].sessions && trace[i].sessions[id].ready
    ensures var s := trace[i];
      var c := s.sessions[id];
      && id in s.base && s.base[id] <= |s.drained|
      && c.written + c.inFlight + c.pending == s.drained[s.base[id]..]
      && |c.inFlight| <= 1
      && (c.pending != [] ==> |c.inFlight| == 1)
      && (c.inFlight == [] ==> c.written == s.drained[s.base[id]..])
  {
    EveryRunIsSound(trace, steps, i);
    assert Live(trace[i], id);
  }

  /** What a client has received so far, connected or not. */
  function Received(s: State, id: nat): seq<Payload> {
    if id in s.sessions then s.sessions[id].written
    else if id in s.gone then s.gone[id].written
    else []
  }

  ghost predicate WasReady(s: State, id: nat) {
    (id in s.sessions && s.sessions[id].ready) || (id in s.gone && s.gone[id].ready)
  }

  /** Any two clients, connected or gone, agree alert by alert where their stretches of the
      drained stream overlap. */
  lemma ClientsAgree(trace: seq<State>, steps: seq<Step>, i: nat, a: nat, b: nat, k: nat)
    requires Trace(trace, steps) && i < |trace|
    requires WasReady(trace[i], a) && WasReady(trace[i], b)
    ensures a in trace[i].base && b in trace[i].base
    ensures var s := trace[i];
      s.base[a] <= k < s.base[a] + |Received(s, a)| && s.base[b] <= k < s.base[b] + |Received(s, b)| ==>
        Received(s, a)[k - s.base[a]] == Received(s, b)[k - s.base[b]]
  {
    EveryRunIsSound(trace, steps, i);
    ReceivedIsStretch(trace[i], a);
    ReceivedIsStretch(trace[i], b);
  }

  lemma ReceivedIsStretch(s: State, id: nat)
    requires SessionsSound(s) && WasReady(s, id)
    ensures id in s.base && s.base[id] + |Received(s, id)| <= |s.drained|
    ensures Received(s, id) == s.drained[s.base[id]..s.base[id] + |Received(s, id)|]
  {
    if id in s.sessions {
      assert Live(s, id);
      var c := s.sessions[id];
      assert c.written == Stream(c)[..|c.written|];
    } else {
      assert Past(s, id);
    }
  }
}
