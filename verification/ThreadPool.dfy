/**
  The worker pool.  A worker tests its wait predicate while it holds the mutex and gives the
  mutex up only as it falls asleep, so testing and sleeping are two steps and nobody can
  submit in between.  shutdown() sets the stop flag and notifies without taking the mutex.
 */
module ThreadPool {
  import opened Wrappers

  // ── The task queue ──────────────────────────────────────────────────────────

  /** `submitted` is every task ever submitted; the first `started` of them have been taken. */
  datatype Tasks<T> = Tasks(queue: seq<T>, stop: bool, submitted: seq<T>, started: nat)

  datatype Pass<+T> = Exit | Wait | Run(task: T)

  function Submitted<T>(q: Tasks<T>, task: T): Tasks<T> {
    q.(queue := q.queue + [task], submitted := q.submitted + [task])
  }

  /** One pass of a worker through its critical section. */
  function WorkerPass<T>(q: Tasks<T>): (Pass<T>, Tasks<T>) {
    if !q.stop && q.queue == [] then (Wait, q)
    else if q.queue == [] then (Exit, q)
    else (Run(q.queue[0]), q.(queue := q.queue[1..], started := q.started + 1))
  }

  /** Nothing submitted is lost, started twice or started out of order. */
  ghost predicate Fifo<T>(q: Tasks<T>) {
    q.started <= |q.submitted| && q.queue == q.submitted[q.started..]
  }

  lemma SubmitKeepsFifo<T>(q: Tasks<T>, task: T)
    requires Fifo(q)
    ensures Fifo(Submitted(q, task))
  {
    assert Submitted(q, task).queue == Submitted(q, task).submitted[q.started..];
  }

  lemma PassKeepsFifo<T>(q: Tasks<T>)
    requires Fifo(q)
    ensures Fifo(WorkerPass(q).1)
    ensures WorkerPass(q).0.Run? ==> q.started < |q.submitted| && WorkerPass(q).0.task == q.submitted[q.started]
  {
  }

  class Pool<T> {
    var queue: seq<T>
    var stop: bool
    ghost var submitted: seq<T>
    ghost var started: nat

    ghost function View(): Tasks<T>
      reads this
    {
      Tasks(queue, stop, submitted, started)
    }

    ghost predicate Valid()
      reads this
    {
      Fifo(View())
    }

    constructor ()
      ensures Valid() && View() == Tasks([], false, [], 0)
    {
      queue, stop, submitted, started := [], false, [], 0;
    }

    method Submit(task: T)
      requires Valid()
      modifies this`queue, this`submitted
      ensures Valid() && View() == Submitted(old(View()), task)
    {
      SubmitKeepsFifo(View(), task);
      queue := queue + [task];
      submitted := submitted + [task];
    }

    method TakeTask() returns (pass: Pass<T>)
      requires Valid()
      modifies this`queue, this`started
      ensures Valid() && (pass, View()) == WorkerPass(old(View()))
    {
      if !stop && |queue| == 0 {
        return Wait;
      }
      if stop && |queue| == 0 {
        return Exit;
      }
      pass := Run(queue[0]);
      queue, started := queue[1..], started + 1;
    }

    /** The compare-exchange: only the first caller goes on to notify and join. */
    method RequestStop() returns (first: bool)
      requires Valid()
      modifies this`stop
      ensures Valid() && stop && first == !old(stop)
    {
      first := !stop;
      stop := true;
    }
  }

  // ── The pool as a protocol ──────────────────────────────────────────────────

  /** `Free` and `Woken` are about to lock the mutex; `Window` holds it, between having found
      nothing to do and falling asleep; `Busy(i)` runs the i-th submitted task. */
  datatype Worker = Free | Window | Sleeping | Woken | Busy(task: nat) | Exited

  datatype Shutdown = NotCalled | Flagged | Notified | Joined

  datatype State<T> = State(
    q: Tasks<T>,
    workers: seq<Worker>,
    posting: nat,              // submitters between their push and their notify_one
    shutdown: Shutdown,
    finished: set<nat>,
    atStop: nat,               // how many tasks had been submitted when the flag was set
    late: Option<nat>)         // the worker in its window when shutdown() notified

  datatype Step<T> =
    | Test(w: nat)
    | FallAsleep(w: nat)
    | Finish(w: nat)
    | Spurious(w: nat)
    | SubmitPush(task: T)
    | SubmitNotify(wake: Option<nat>)
    | ShutdownFlag
    | ShutdownNotify
    | ShutdownJoin

  function Init<T>(workerCount: nat): State<T> {
    State(Tasks([], false, [], 0), seq(workerCount, _ => Free), 0, NotCalled, {}, 0, None)
  }

  /** The mutex is held across a step only by a worker in its window. */
  ghost predicate MutexFree<T>(s: State<T>) {
    forall w :: 0 <= w < |s.workers| ==> s.workers[w] != Window
  }

  ghost predicate Enabled<T>(s: State<T>, step: Step<T>) {
    match step
    case Test(w) => w < |s.workers| && s.workers[w] in {Free, Woken} && MutexFree(s)
    case FallAsleep(w) => w < |s.workers| && s.workers[w] == Window
    case Finish(w) => w < |s.workers| && s.workers[w].Busy?
    case Spurious(w) => w < |s.workers| && s.workers[w] == Sleeping
    case SubmitPush(task) => MutexFree(s)
    case SubmitNotify(wake) =>
      && s.posting > 0
      && (match wake
          case None => forall w :: 0 <= w < |s.workers| ==> s.workers[w] != Sleeping
          case Some(w) => w < |s.workers| && s.workers[w] == Sleeping)
    case ShutdownFlag => s.shutdown == NotCalled
    case ShutdownNotify => s.shutdown == Flagged
    case ShutdownJoin => s.shutdown == Notified && forall w :: 0 <= w < |s.workers| ==> s.workers[w] == Exited
  }

  function AfterTest<T>(s: State<T>, w: nat): State<T>
    requires w < |s.workers|
  {
    var (pass, q) := WorkerPass(s.q);
    var pc := match pass case Exit => Exited case Wait => Window case Run(_) => Busy(s.q.started);
    s.(q := q, workers := s.workers[w := pc])
  }

  ghost function WindowOf<T>(s: State<T>): Option<nat> {
    if w: nat :| w < |s.workers| && s.workers[w] == Window then Some(w) else None
  }

  ghost function Next<T>(s: State<T>, step: Step<T>): State<T>
    requires Enabled(s, step)
  {
    match step
    case Test(w) => AfterTest(s, w)
    case FallAsleep(w) => s.(workers := s.workers[w := Sleeping])
    case Finish(w) => s.(workers := s.workers[w := Free], finished := s.finished + {s.workers[w].task})
    case Spurious(w) => s.(workers := s.workers[w := Woken])
    case SubmitPush(task) => s.(q := Submitted(s.q, task), posting := s.posting + 1)
    case SubmitNotify(wake) =>
      (match wake
       case None => s.(posting := s.posting - 1)
       case Some(w) => s.(posting := s.posting - 1, workers := s.workers[w := Woken]))
    case ShutdownFlag => s.(q := s.q.(stop := true), shutdown := Flagged, atStop := |s.q.submitted|)
    case ShutdownNotify => s.(workers := WakeAll(s.workers), shutdown := Notified, late := WindowOf(s))
    case ShutdownJoin => s.(shutdown := Joined)
  }

  function WakeAll(workers: seq<Worker>): seq<Worker> {
    seq(|workers|, w requires 0 <= w < |workers| => if workers[w] == Sleeping then Woken else workers[w])
  }

  // ── Invariants ──────────────────────────────────────────────────────────────

  ghost predicate Runs<T>(s: State<T>, w: int, i: nat) {
    0 <= w < |s.workers| && s.workers[w] == Busy(i)
  }

  /** Every started task is finished or being run by one worker; no other task is either. */
  ghost predicate TasksAccounted<T>(s: State<T>) {
    && Fifo(s.q)
    && (forall i :: i in s.finished ==> i < s.q.started)
    && (forall w, i: nat :: Runs(s, w, i) ==> i < s.q.started && i !in s.finished)
    && (forall w, w', i :: Runs(s, w, i) && Runs(s, w', i) ==> w == w')
    && (forall i: nat :: i < s.q.started ==> i in s.finished || exists w :: Runs(s, w, i))
  }

  ghost predicate OneWindow<T>(s: State<T>) {
    && (forall v, w :: 0 <= v < w < |s.workers| ==> s.workers[v] != Window || s.workers[w] != Window)
    && (s.q.queue != [] ==> MutexFree(s))
  }

  /** A worker exits only after everything submitted before the stop flag has been started. */
  ghost predicate ExitsAfterDrain<T>(s: State<T>) {
    && (s.q.stop <==> s.shutdown != NotCalled)
    && (s.q.stop ==> s.atStop <= |s.q.submitted|)
    && (forall w :: 0 <= w < |s.workers| && s.workers[w] == Exited ==> s.q.stop && s.atStop <= s.q.started)
    && (s.shutdown == Joined ==> forall w :: 0 <= w < |s.workers| ==> s.workers[w] == Exited)
  }

  /** After shutdown() has notified, only a worker it caught in its window can sleep. */
  ghost predicate OnlyLateSleeps<T>(s: State<T>) {
    s.shutdown in {Notified, Joined} ==>
      forall w :: 0 <= w < |s.workers| && s.workers[w] in {Window, Sleeping} ==> s.late == Some(w)
  }

  ghost function WokenSet(workers: seq<Worker>): set<nat> {
    set w: nat | w < |workers| && workers[w] == Woken
  }

  /** A worker sleeps only if every queued task has a woken worker or a notify on its way. */
  ghost predicate TasksCovered<T>(s: State<T>) {
    (exists w :: 0 <= w < |s.workers| && s.workers[w] == Sleeping) ==>
      |s.q.queue| <= |WokenSet(s.workers)| + s.posting
  }

  ghost predicate Inv<T>(s: State<T>) {
    TasksAccounted(s) && OneWindow(s) && ExitsAfterDrain(s) && OnlyLateSleeps(s) && TasksCovered(s)
  }

  lemma WokenAfter(workers: seq<Worker>, w: nat, pc: Worker)
    requires w < |workers|
    ensures |WokenSet(workers[w := pc])| ==
            |WokenSet(workers)| + (if pc == Woken then 1 else 0) - (if workers[w] == Woken then 1 else 0)
  {
    var others := WokenSet(workers) - {w};
    assert WokenSet(workers) == if workers[w] == Woken then others + {w} else others;
    assert WokenSet(workers[w := pc]) == if pc == Woken then others + {w} else others;
  }

  lemma StepKeepsCover<T>(s: State<T>, step: Step<T>)
    requires TasksCovered(s) && OneWindow(s) && Enabled(s, step)
    ensures TasksCovered(Next(s, step))
  {
    match step
    case Test(w) => WokenAfter(s.workers, w, AfterTest(s, w).workers[w]);
    case FallAsleep(w) =>
      assert !MutexFree(s);
      WokenAfter(s.workers, w, Sleeping);
    case Finish(w) => WokenAfter(s.workers, w, Free);
    case Spurious(w) => WokenAfter(s.workers, w, Woken);
    case SubmitNotify(Some(w)) => WokenAfter(s.workers, w, Woken);
    case _ =>
  }

  /** One worker's move leaves at most one worker in its window, if nobody else is in one. */
  lemma MoveKeepsWindow<T>(s: State<T>, s': State<T>, w: nat)
    requires OneWindow(s) && w < |s.workers|
    requires |s'.workers| == |s.workers| && s'.workers == s.workers[w := s'.workers[w]]
    requires s'.workers[w] == Window ==> MutexFree(s) && s'.q.queue == []
    requires s'.q.queue != [] ==> s.q.queue != []
    ensures OneWindow(s')
  {
    if s'.q.queue != [] {
      assert MutexFree(s);
    }
  }

  lemma StepKeepsWindow<T>(s: State<T>, step: Step<T>)
    requires OneWindow(s) && Enabled(s, step)
    ensures OneWindow(Next(s, step))
  {
    match step
    case Test(w) => MoveKeepsWindow(s, Next(s, step), w);
    case FallAsleep(w) => MoveKeepsWindow(s, Next(s, step), w);
    case Finish(w) => MoveKeepsWindow(s, Next(s, step), w);
    case Spurious(w) => MoveKeepsWindow(s, Next(s, step), w);
    case SubmitPush(task) =>
    case SubmitNotify(wake) =>
      if wake.Some? {
        MoveKeepsWindow(s, Next(s, step), wake.value);
      }
    case ShutdownFlag =>
    case ShutdownNotify =>
      assert forall w :: 0 <= w < |s.workers| ==> (Next(s, step).workers[w] == Window <==> s.workers[w] == Window);
    case ShutdownJoin =>
  }

  lemma MoveKeepsExits<T>(s: State<T>, s': State<T>, w: nat)
    requires ExitsAfterDrain(s) && w < |s.workers| && s.workers[w] != Exited
    requires |s'.workers| == |s.workers| && s'.workers == s.workers[w := s'.workers[w]]
    requires s'.shutdown == s.shutdown && s'.atStop == s.atStop && s'.q.stop == s.q.stop
    requires s'.q.submitted == s.q.submitted && s.q.started <= s'.q.started
    requires s'.workers[w] == Exited ==> s.q.stop && s.atStop <= s.q.started
    ensures ExitsAfterDrain(s')
  {
  }

  lemma StepKeepsExits<T>(s: State<T>, step: Step<T>)
    requires ExitsAfterDrain(s) && Fifo(s.q) && Enabled(s, step)
    ensures ExitsAfterDrain(Next(s, step))
  {
    match step
    case Test(w) => MoveKeepsExits(s, Next(s, step), w);
    case FallAsleep(w) => MoveKeepsExits(s, Next(s, step), w);
    case Finish(w) => MoveKeepsExits(s, Next(s, step), w);
    case Spurious(w) => MoveKeepsExits(s, Next(s, step), w);
    case SubmitPush(task) =>
    case SubmitNotify(wake) =>
      if wake.Some? {
        MoveKeepsExits(s, Next(s, step), wake.value);
      }
    case ShutdownFlag =>
    case ShutdownNotify =>
      assert forall w :: 0 <= w < |s.workers| ==> (Next(s, step).workers[w] == Exited <==> s.workers[w] == Exited);
    case ShutdownJoin =>
  }

  lemma MoveKeepsLate<T>(s: State<T>, s': State<T>, w: nat)
    requires OnlyLateSleeps(s) && w < |s.workers|
    requires |s'.workers| == |s.workers| && s'.workers == s.workers[w := s'.workers[w]]
    requires s'.shutdown == s.shutdown && s'.late == s.late
    requires s'.workers[w] in {Window, Sleeping} ==> s.workers[w] == Window || s.shutdown !in {Notified, Joined}
    ensures OnlyLateSleeps(s')
  {
  }

  lemma StepKeepsLate<T>(s: State<T>, step: Step<T>)
    requires OneWindow(s) && ExitsAfterDrain(s) && OnlyLateSleeps(s) && Enabled(s, step)
    ensures OnlyLateSleeps(Next(s, step))
  {
    match step
    case Test(w) => MoveKeepsLate(s, Next(s, step), w);
    case FallAsleep(w) => MoveKeepsLate(s, Next(s, step), w);
    case Finish(w) => MoveKeepsLate(s, Next(s, step), w);
    case Spurious(w) => MoveKeepsLate(s, Next(s, step), w);
    case SubmitPush(task) =>
    case SubmitNotify(wake) =>
      if wake.Some? {
        MoveKeepsLate(s, Next(s, step), wake.value);
      }
    case ShutdownFlag =>
    case ShutdownNotify => NotifyCatches(s);
    case ShutdownJoin =>
  }

  /** What shutdown()'s notify leaves: nobody asleep, and `late` the one worker in its window. */
  lemma NotifyCatches<T>(s: State<T>)
    requires OneWindow(s) && Enabled(s, ShutdownNotify)
    ensures var s' := Next(s, ShutdownNotify);
      && Sleeping !in s'.workers
      && (s'.late == None <==> MutexFree(s))
      && forall w: nat :: w < |s.workers| ==> (s'.workers[w] == Window <==> s'.late == Some(w))
  {
    if w: nat :| w < |s.workers| && s.workers[w] == Window {
      assert WindowOf(s).Some?;
    }
  }

  lemma PcChangeKeepsAccount<T>(s: State<T>, w: nat, pc: Worker)
    requires TasksAccounted(s) && w < |s.workers|
    requires !s.workers[w].Busy? && !pc.Busy?
    ensures TasksAccounted(s.(workers := s.workers[w := pc]))
  {
    var s' := s.(workers := s.workers[w := pc]);
    assert forall v, i :: Runs(s', v, i) <==> Runs(s, v, i);
  }

  lemma StartKeepsAccount<T>(s: State<T>, w: nat)
    requires TasksAccounted(s) && w < |s.workers| && !s.workers[w].Busy? && s.q.queue != []
    ensures TasksAccounted(AfterTest(s, w))
  {
    PassKeepsFifo(s.q);
    var s', n := AfterTest(s, w), s.q.started;
    assert Runs(s', w, n);
    assert forall v, i :: Runs(s', v, i) <==> Runs(s, v, i) || (v == w && i == n);
  }

  lemma FinishKeepsAccount<T>(s: State<T>, w: nat)
    requires TasksAccounted(s) && Enabled(s, Finish(w))
    ensures TasksAccounted(Next(s, Finish(w)))
  {
    var s', n := Next(s, Finish(w)), s.workers[w].task;
    assert Runs(s, w, n);
    assert forall v, i :: Runs(s', v, i) <==> Runs(s, v, i) && v != w;
    forall i: nat | i < s'.q.started ensures i in s'.finished || exists v :: Runs(s', v, i) {
      if i !in s'.finished {
        var v :| Runs(s, v, i);
        assert Runs(s', v, i);
      }
    }
  }

  lemma StepKeepsAccount<T>(s: State<T>, step: Step<T>)
    requires TasksAccounted(s) && Enabled(s, step)
    ensures TasksAccounted(Next(s, step))
  {
    match step
    case Test(w) =>
      if s.q.queue != [] {
        StartKeepsAccount(s, w);
      } else {
        PcChangeKeepsAccount(s, w, if s.q.stop then Exited else Window);
      }
    case FallAsleep(w) => PcChangeKeepsAccount(s, w, Sleeping);
    case Finish(w) => FinishKeepsAccount(s, w);
    case Spurious(w) => PcChangeKeepsAccount(s, w, Woken);
    case SubmitPush(task) =>
      SubmitKeepsFifo(s.q, task);
      assert forall v, i :: Runs(Next(s, step), v, i) <==> Runs(s, v, i);
    case SubmitNotify(wake) =>
      if wake.Some? {
        PcChangeKeepsAccount(s, wake.value, Woken);
      }
      assert forall v, i :: Runs(Next(s, step), v, i) <==> Runs(s, v, i);
    case _ =>
      assert forall v, i :: Runs(Next(s, step), v, i) <==> Runs(s, v, i);
  }

  lemma StepKeepsInv<T>(s: State<T>, step: Step<T>)
    requires Inv(s) && Enabled(s, step)
    ensures Inv(Next(s, step))
  {
    StepKeepsAccount(s, step);
    StepKeepsCover(s, step);
    StepKeepsWindow(s, step);
    StepKeepsExits(s, step);
    StepKeepsLate(s, step);
  }

  // ── Runs ────────────────────────────────────────────────────────────────────

  ghost predicate Trace<T>(trace: seq<State<T>>, steps: seq<Step<T>>) {
    && |trace| == |steps| + 1
    && forall i {:trigger steps[i]} :: 0 <= i < |steps| ==>
         Enabled(trace[i], steps[i]) && trace[i + 1] == Next(trace[i], steps[i])
  }

  lemma {:induction false} EveryRunKeepsInv<T>(trace: seq<State<T>>, steps: seq<Step<T>>, i: nat)
    requires Trace(trace, steps) && Inv(trace[0]) && i < |trace|
    ensures Inv(trace[i]) && |trace[i].workers| == |trace[0].workers|
  {
    if i > 0 {
      EveryRunKeepsInv(trace, steps, i - 1);
      StepKeepsInv(trace[i - 1], steps[i - 1]);
    }
  }

  lemma InitIsInv<T>(workerCount: nat)
    ensures Inv(Init<T>(workerCount))
  {
  }

  /** When shutdown()'s joins have returned, every task submitted before the stop flag has
      finished, exactly if the pool has a worker at all (or there was nothing to do). */
  lemma ShutdownDrainsExactly<T>(trace: seq<State<T>>, steps: seq<Step<T>>, workerCount: nat, i: nat)
    requires Trace(trace, steps) && trace[0] == Init(workerCount) && i < |trace|
    requires trace[i].shutdown == Joined
    ensures (forall k: nat :: k < trace[i].atStop ==> k in trace[i].finished)
            <==> workerCount >= 1 || trace[i].atStop == 0
  {
    InitIsInv<T>(workerCount);
    EveryRunKeepsInv(trace, steps, i);
    var s := trace[i];
    if workerCount >= 1 {
      assert s.workers[0] == Exited;
      assert forall w, k :: !Runs(s, w, k);
    } else {
      NoWorkerNoTask(trace, steps, i);
      assert 0 !in s.finished;
    }
  }

  lemma NobodyFinishes<T>(s: State<T>, step: Step<T>)
    requires s.workers == [] && Enabled(s, step)
    ensures Next(s, step).workers == [] && Next(s, step).finished == s.finished
  {
  }

  lemma {:induction false} NoWorkerNoTask<T>(trace: seq<State<T>>, steps: seq<Step<T>>, i: nat)
    requires Trace(trace, steps) && i < |trace|
    requires trace[0].workers == [] && trace[0].finished == {}
    ensures trace[i].workers == [] && trace[i].finished == {}
  {
    if i > 0 {
      NoWorkerNoTask(trace, steps, i - 1);
      NobodyFinishes(trace[i - 1], steps[i - 1]);
    }
  }

  /** At every moment of every run: tasks start in submission order, none twice, and what is
      not started is queued. */
  lemma PoolIsAFifo<T>(trace: seq<State<T>>, steps: seq<Step<T>>, workerCount: nat, i: nat)
    requires Trace(trace, steps) && trace[0] == Init(workerCount) && i < |trace|
    ensures var s := trace[i];
      && |s.q.submitted| == s.q.started + |s.q.queue|
      && s.q.submitted == s.q.submitted[..s.q.started] + s.q.queue
      && (forall w, w', k :: Runs(s, w, k) && Runs(s, w', k) ==> w == w')
      && (forall w, k: nat :: Runs(s, w, k) ==> k < s.q.started && k !in s.finished)
  {
    InitIsInv<T>(workerCount);
    EveryRunKeepsInv(trace, steps, i);
  }

  /** No submitted task is forgotten: a worker sleeps beside a queued task only while another
      worker has been woken for it or its submitter has still to notify. */
  lemma NoTaskForgotten<T>(trace: seq<State<T>>, steps: seq<Step<T>>, workerCount: nat, i: nat, w: nat)
    requires Trace(trace, steps) && trace[0] == Init(workerCount) && i < |trace|
    requires w < |trace[i].workers| && trace[i].workers[w] == Sleeping && trace[i].q.queue != []
    ensures trace[i].posting > 0 || exists v :: 0 <= v < |trace[i].workers| && trace[i].workers[v] == Woken
  {
    InitIsInv<T>(workerCount);
    EveryRunKeepsInv(trace, steps, i);
    if trace[i].posting == 0 {
      assert WokenSet(trace[i].workers) != {};
      var v :| v in WokenSet(trace[i].workers);
    }
  }

  // ── Tasks submitted late ────────────────────────────────────────────────────

  /** Without a spurious wakeup, some run from here starts task number `k`. */
  ghost predicate CanStart<T(!new)>(s: State<T>, k: nat) {
    exists trace: seq<State<T>>, steps: seq<Step<T>> ::
      && Trace(trace, steps) && trace[0] == s
      && (forall i {:trigger steps[i]} :: 0 <= i < |steps| ==> !steps[i].Spurious?)
      && k < trace[|steps|].q.started
  }

  lemma TracePrepends<T>(s: State<T>, step: Step<T>, trace: seq<State<T>>, steps: seq<Step<T>>)
    requires Trace(trace, steps) && Enabled(s, step) && trace[0] == Next(s, step)
    ensures Trace([s] + trace, [step] + steps)
  {
    var trace', steps' := [s] + trace, [step] + steps;
    forall i {:trigger steps'[i]} | 0 <= i < |steps'|
      ensures Enabled(trace'[i], steps'[i]) && trace'[i + 1] == Next(trace'[i], steps'[i])
    {
      if i > 0 {
        assert steps'[i] == steps[i - 1];
      }
    }
  }

  lemma TraceExtends<T>(trace: seq<State<T>>, steps: seq<Step<T>>, step: Step<T>, s: State<T>)
    requires Trace(trace, steps) && Enabled(trace[|steps|], step) && s == Next(trace[|steps|], step)
    ensures Trace(trace + [s], steps + [step])
  {
    var trace', steps' := trace + [s], steps + [step];
    forall i {:trigger steps'[i]} | 0 <= i < |steps'|
      ensures Enabled(trace'[i], steps'[i]) && trace'[i + 1] == Next(trace'[i], steps'[i])
    {
      if i < |steps| {
        assert steps'[i] == steps[i];
      }
    }
  }

  lemma StartsAfter<T(!new)>(s: State<T>, step: Step<T>, k: nat)
    requires Enabled(s, step) && !step.Spurious? && CanStart(Next(s, step), k)
    ensures CanStart(s, k)
  {
    var trace: seq<State<T>>, steps: seq<Step<T>> :|
      && Trace(trace, steps) && trace[0] == Next(s, step)
      && (forall i {:trigger steps[i]} :: 0 <= i < |steps| ==> !steps[i].Spurious?)
      && k < trace[|steps|].q.started;
    var trace', steps' := [s] + trace, [step] + steps;
    TracePrepends(s, step, trace, steps);
    assert trace'[0] == s && k < trace'[|steps'|].q.started;
  }

  /** How many steps worker `w` needs to come back for the next task. */
  function StepsToTest(w: Worker): nat {
    match w
    case Busy(_) => 2
    case Sleeping => 1
    case _ => 0
  }

  lemma LiveWorkerStarts<T(!new)>(s: State<T>, w: nat, k: nat)
    requires Inv(s) && k < |s.q.submitted|
    requires w < |s.workers| && s.workers[w] != Exited
    ensures CanStart(s, k)
    decreases k + 1 - s.q.started, StepsToTest(s.workers[w])
  {
    if k < s.q.started {
      var none: seq<Step<T>> := [];
      assert Trace([s], none) && [s][|none|] == s;
    } else {
      assert s.q.queue != [] && MutexFree(s);
      var step, v := LiveWorkerStep(s, w);
      StepKeepsInv(s, step);
      LiveWorkerStarts(Next(s, step), v, k);
      StartsAfter(s, step, k);
    }
  }

  /** Beside a queued task there is a next step towards starting it: of `w` itself, or of the
      worker that was woken while `w` sleeps. */
  lemma LiveWorkerStep<T>(s: State<T>, w: nat) returns (step: Step<T>, v: nat)
    requires Inv(s) && s.q.queue != [] && w < |s.workers| && s.workers[w] != Exited
    ensures Enabled(s, step) && !step.Spurious?
    ensures v < |Next(s, step).workers| && Next(s, step).workers[v] != Exited
    ensures |Next(s, step).q.submitted| >= |s.q.submitted|
    ensures Next(s, step).q.started == s.q.started + 1
            || (Next(s, step).q.started == s.q.started
                && StepsToTest(Next(s, step).workers[v]) < StepsToTest(s.workers[w]))
  {
    assert MutexFree(s);
    v := w;
    match s.workers[w]
    case Busy(_) => step := Finish(w);
    case Sleeping =>
      if s.posting > 0 {
        step := SubmitNotify(Some(w));
      } else {
        assert WokenSet(s.workers) != {};
        v :| v in WokenSet(s.workers);
        step := Test(v);
      }
    case _ => step := Test(w);
  }

  lemma {:induction false} NobodyLeft<T>(trace: seq<State<T>>, steps: seq<Step<T>>, i: nat)
    requires Trace(trace, steps) && i < |trace|
    requires forall w :: 0 <= w < |trace[0].workers| ==> trace[0].workers[w] == Exited
    ensures trace[i].workers == trace[0].workers && trace[i].q.started == trace[0].q.started
  {
    if i > 0 {
      NobodyLeft(trace, steps, i - 1);
      if steps[i - 1].ShutdownNotify? {
        assert trace[i].workers == trace[i - 1].workers;
      }
    }
  }

  /** submit() does not look at the stop flag.  A task still queued, however late it came, can
      yet be started exactly while some worker has not exited; after that it never is. */
  lemma QueuedTaskStartsExactly<T(!new)>(s: State<T>, k: nat)
    requires Inv(s) && s.q.started <= k < |s.q.submitted|
    ensures CanStart(s, k) <==> exists w :: 0 <= w < |s.workers| && s.workers[w] != Exited
  {
    if w: nat :| w < |s.workers| && s.workers[w] != Exited {
      LiveWorkerStarts(s, w, k);
    } else {
      forall trace: seq<State<T>>, steps: seq<Step<T>> | Trace(trace, steps) && trace[0] == s
        ensures trace[|steps|].q.started == s.q.started
      {
        NobodyLeft(trace, steps, |steps|);
      }
    }
  }

  // ── The wakeup shutdown() can lose ──────────────────────────────────────────

  /** No spurious wakeup, and no later submit, comes to the rescue. */
  ghost predicate NobodyHelps<T>(steps: seq<Step<T>>) {
    forall i {:trigger steps[i]} :: 0 <= i < |steps| ==> !steps[i].Spurious? && !steps[i].SubmitNotify?
  }

  lemma {:induction false} SleeperIsStuck<T>(trace: seq<State<T>>, steps: seq<Step<T>>, w: nat, i: nat)
    requires Trace(trace, steps) && NobodyHelps(steps) && i < |trace|
    requires w < |trace[0].workers| && trace[0].workers[w] == Sleeping && trace[0].shutdown == Notified
    ensures w < |trace[i].workers| && trace[i].workers[w] == Sleeping && trace[i].shutdown == Notified
  {
    if i > 0 {
      var step := steps[i - 1];
      SleeperIsStuck(trace, steps, w, i - 1);
    }
  }

  /** `late` is settled by the notify and never changes after it. */
  lemma LateStep<T>(s: State<T>, step: Step<T>)
    requires Enabled(s, step) && s.shutdown in {Notified, Joined}
    ensures Next(s, step).late == s.late && Next(s, step).shutdown in {Notified, Joined}
  {
  }

  /** A worker that shutdown() caught in its window is still on its way to sleep, or asleep. */
  ghost predicate Caught<T>(s: State<T>) {
    s.late.Some? ==>
      s.shutdown == Notified && s.late.value < |s.workers| && s.workers[s.late.value] in {Window, Sleeping}
  }

  /** Without a spurious wakeup and without a later submit it stays caught. */
  lemma StepKeepsCaught<T>(s: State<T>, step: Step<T>)
    requires Inv(s) && Caught(s) && Enabled(s, step)
    requires !step.Spurious? && (step.SubmitNotify? ==> s.late == None)
    ensures Caught(Next(s, step))
  {
    match step
    case Test(w) =>
    case FallAsleep(w) =>
    case Finish(w) =>
    case SubmitPush(task) =>
    case SubmitNotify(wake) =>
    case ShutdownFlag =>
    case ShutdownNotify => NotifyCatches(s);
    case ShutdownJoin =>
  }

  lemma {:induction false} LateStays<T>(trace: seq<State<T>>, steps: seq<Step<T>>, i: nat)
    requires Trace(trace, steps) && i < |trace| && trace[0].shutdown in {Notified, Joined}
    ensures trace[i].late == trace[0].late && trace[i].shutdown in {Notified, Joined}
  {
    if i > 0 {
      LateStays(trace, steps, i - 1);
      LateStep(trace[i - 1], steps[i - 1]);
    }
  }

  /** Starting from `s`, a run with no help can put a worker to sleep for good while shutdown()
      waits in its joins. */
  ghost predicate CanHang<T(!new)>(s: State<T>) {
    exists trace: seq<State<T>>, steps: seq<Step<T>>, w: nat ::
      && Trace(trace, steps) && trace[0] == s && NobodyHelps(steps)
      && w < |trace[|steps|].workers| && trace[|steps|].workers[w] == Sleeping
      && trace[|steps|].shutdown == Notified
  }

  /** shutdown() can lose its wakeup, and then its join never returns: exactly when, at the
      moment it notifies, some worker has tested the predicate but is not yet asleep. */
  lemma ShutdownLosesWakeupExactly<T(!new)>(s: State<T>)
    requires Inv(s) && Enabled(s, ShutdownNotify)
    ensures CanHang(Next(s, ShutdownNotify)) <==> !MutexFree(s)
  {
    var s' := Next(s, ShutdownNotify);
    StepKeepsInv(s, ShutdownNotify);
    if !MutexFree(s) {
      var w: nat :| w < |s.workers| && s.workers[w] == Window;
      var s'' := Next(s', FallAsleep(w));
      var trace, steps := [s', s''], [Step<T>.FallAsleep(w)];
      assert Trace(trace, steps) && NobodyHelps(steps);
      assert trace[|steps|].workers[w] == Sleeping && trace[|steps|].shutdown == Notified;
    } else {
      assert s'.late == None;
      forall trace: seq<State<T>>, steps: seq<Step<T>> | Trace(trace, steps) && trace[0] == s'
        ensures forall w :: 0 <= w < |trace[|steps|].workers| ==> trace[|steps|].workers[w] != Sleeping
      {
        EveryRunKeepsInv(trace, steps, |steps|);
        LateStays(trace, steps, |steps|);
      }
    }
  }

  /** A pool with one worker and nothing to do. */
  function LonelyPool(worker: Worker, phase: Shutdown, late: Option<nat>): State<int> {
    State(Tasks([], phase != NotCalled, [], 0), [worker], 0, phase, {}, 0, late)
  }

  lemma StoppedInWindow() returns (trace: seq<State<int>>, steps: seq<Step<int>>)
    ensures Trace(trace, steps) && trace[0] == Init(1)
    ensures trace[|steps|] == LonelyPool(Window, Flagged, None)
  {
    var s0 := LonelyPool(Free, NotCalled, None);
    var s1, s2 := LonelyPool(Window, NotCalled, None), LonelyPool(Window, Flagged, None);
    assert Init<int>(1).workers == [Free];
    trace, steps := [s0], [];
    TraceExtends(trace, steps, Test(0), s1);
    trace, steps := trace + [s1], steps + [Test(0)];
    TraceExtends(trace, steps, ShutdownFlag, s2);
    trace, steps := trace + [s2], steps + [ShutdownFlag];
  }

  /** The moment is reachable: a pool with one worker, stopped just as the worker first finds
      nothing to do. */
  lemma ShutdownCanHang() returns (trace: seq<State<int>>, steps: seq<Step<int>>)
    ensures Trace(trace, steps) && trace[0] == Init(1)
    ensures trace[|steps|].workers == [Sleeping] && trace[|steps|].shutdown == Notified
  {
    trace, steps := StoppedInWindow();
    var s := trace[|steps|];
    assert WakeAll(s.workers) == [Window];
    var s1 := LonelyPool(Window, Notified, WindowOf(s));
    TraceExtends(trace, steps, ShutdownNotify, s1);
    trace, steps := trace + [s1], steps + [ShutdownNotify];
    var s2 := s1.(workers := [Sleeping]);
    TraceExtends(trace, steps, FallAsleep(0), s2);
    trace, steps := trace + [s2], steps + [FallAsleep(0)];
  }
}
