/** The warm-up pool (burnin/src/engine.ts:798-854): workers that share the next task and the
    error list, one step per stretch of code between two awaits. */
module WarmupPoolModel {

  const MAX_RETRIES: nat := 3

  /** Where a pool worker is: at its loop test, warming a channel after `failed` failed attempts,
      or returned. */
  datatype Stage = AtTest | Warming(task: nat, failed: nat) | Returned

  /** `idx` and `errors` are shared; `errors` lists the tasks given up. `takenBy[t]` is the worker
      that took task t, `attempts` how often each channel was tried. */
  datatype Pool = Pool(
    tasks: nat,
    workers: seq<Stage>,
    idx: nat,
    errors: seq<nat>,
    takenBy: seq<nat>,
    warmed: set<nat>,
    attempts: map<nat, nat>)

  /** Worker `worker` runs on; `ok` is how the attempt it awaits ended. */
  datatype Event = RunsOn(worker: nat, ok: bool)

  /** The pool size: the configured parallelism, at most one worker a task. */
  function Size(maxParallel: int, tasks: nat): nat {
    if maxParallel <= 0 then 0 else if maxParallel < tasks then maxParallel else tasks
  }

  function Opened(maxParallel: int, tasks: nat): Pool {
    Pool(tasks, seq(Size(maxParallel, tasks), _ => AtTest), 0, [], [], {}, map[])
  }

  function Take(p: Pool, i: nat): Pool
    requires i < |p.workers|
  {
    if p.idx < p.tasks && p.errors == [] then
      p.(workers := p.workers[i := Warming(p.idx, 0)], idx := p.idx + 1,
         takenBy := p.takenBy + [i], attempts := p.attempts[p.idx := 0])
    else p.(workers := p.workers[i := Returned])
  }

  function Tried(p: Pool, t: nat): Pool {
    p.(attempts := p.attempts[t := (if t in p.attempts then p.attempts[t] else 0) + 1])
  }

  function Attempted(p: Pool, i: nat, ok: bool): Pool
    requires i < |p.workers| && p.workers[i].Warming?
  {
    var t, failed := p.workers[i].task, p.workers[i].failed;
    var tried := Tried(p, t);
    if ok then tried.(workers := p.workers[i := AtTest], warmed := p.warmed + {t})
    else if failed == MAX_RETRIES - 1 then tried.(workers := p.workers[i := AtTest], errors := p.errors + [t])
    else tried.(workers := p.workers[i := Warming(t, failed + 1)])
  }

  function Step(p: Pool, e: Event): Pool {
    if e.worker >= |p.workers| then p
    else
      match p.workers[e.worker]
      case AtTest => Take(p, e.worker)
      case Warming(_, _) => Attempted(p, e.worker, e.ok)
      case Returned => p
  }

  function Run(maxParallel: int, tasks: nat, events: seq<Event>): Pool {
    if events == [] then Opened(maxParallel, tasks)
    else Step(Run(maxParallel, tasks, events[..|events| - 1]), events[|events| - 1])
  }

  /** Promise.all has resolved. */
  predicate AllReturned(p: Pool) {
    forall i :: 0 <= i < |p.workers| ==> p.workers[i] == Returned
  }

  /** runWarmup returns without throwing. */
  predicate Succeeds(p: Pool) {
    AllReturned(p) && p.errors == []
  }

  ghost predicate Held(p: Pool, t: nat) {
    exists i :: 0 <= i < |p.workers| && p.workers[i].Warming? && p.workers[i].task == t
  }

  /** What is known of one task. */
  ghost predicate TaskInv(p: Pool, t: nat) {
    if t >= p.idx then t !in p.warmed && t !in p.errors && t !in p.attempts
    else
      && t in p.attempts
      && (t in p.warmed ==> 1 <= p.attempts[t] <= MAX_RETRIES && t !in p.errors)
      && (t in p.errors ==> p.attempts[t] == MAX_RETRIES)
      && (t in p.warmed || t in p.errors || Held(p, t))
  }

  /** A warming worker holds its task alone, and the task is undecided. */
  ghost predicate WorkerInv(p: Pool, i: nat)
    requires i < |p.workers|
  {
    && (p.workers[i].Warming? ==>
          && p.workers[i].task < p.idx && p.workers[i].task !in p.warmed && p.workers[i].task !in p.errors
          && p.workers[i].task in p.attempts && p.attempts[p.workers[i].task] == p.workers[i].failed < MAX_RETRIES
          && p.workers[i].task < |p.takenBy| && p.takenBy[p.workers[i].task] == i)
    && (p.workers[i] == Returned ==> p.idx == p.tasks || p.errors != [])
  }

  ghost predicate Inv(p: Pool) {
    && p.idx == |p.takenBy| <= p.tasks
    && (forall i | 0 <= i < |p.takenBy| :: p.takenBy[i] < |p.workers|)
    && (forall t: nat :: TaskInv(p, t))
    && (forall i: nat | i < |p.workers| :: WorkerInv(p, i))
  }

  /** Others' tasks are not worker `i`'s. */
  lemma HeldAfter(p: Pool, q: Pool, i: nat, t: nat)
    requires i < |p.workers| == |q.workers| && q.workers == p.workers[i := q.workers[i]]
    ensures (p.workers[i].Warming? ==> t != p.workers[i].task) && Held(p, t) ==> Held(q, t)
    ensures q.workers[i].Warming? && q.workers[i].task == t ==> Held(q, t)
  {
    if Held(p, t) && (p.workers[i].Warming? ==> t != p.workers[i].task) {
      var j :| 0 <= j < |p.workers| && p.workers[j].Warming? && p.workers[j].task == t;
      assert q.workers[j] == p.workers[j];
    }
  }

  lemma TakeInv(p: Pool, i: nat)
    requires Inv(p) && i < |p.workers| && p.workers[i] == AtTest
    ensures Inv(Take(p, i))
  {
    var q := Take(p, i);
    hide Held;
    forall t: nat ensures TaskInv(q, t) {
      assert TaskInv(p, t);
      HeldAfter(p, q, i, t);
    }
    forall j: nat | j < |q.workers| ensures WorkerInv(q, j) {
      assert WorkerInv(p, j);
      assert TaskInv(p, p.idx);
    }
  }

  lemma AttemptedInv(p: Pool, i: nat, ok: bool)
    requires Inv(p) && i < |p.workers| && p.workers[i].Warming?
    ensures Inv(Attempted(p, i, ok))
  {
    var q := Attempted(p, i, ok);
    hide Held;
    assert WorkerInv(p, i);
    forall t: nat ensures TaskInv(q, t) {
      assert TaskInv(p, t);
      HeldAfter(p, q, i, t);
    }
    forall j: nat | j < |q.workers| ensures WorkerInv(q, j) {
      assert WorkerInv(p, j);
    }
  }

  lemma {:induction false} RunInv(maxParallel: int, tasks: nat, events: seq<Event>)
    ensures var p := Run(maxParallel, tasks, events);
            Inv(p) && p.tasks == tasks && |p.workers| == Size(maxParallel, tasks)
  {
    if events != [] {
      var before, e := Run(maxParallel, tasks, events[..|events| - 1]), events[|events| - 1];
      hide Inv;
      RunInv(maxParallel, tasks, events[..|events| - 1]);
      if e.worker < |before.workers| {
        match before.workers[e.worker]
        case AtTest => TakeInv(before, e.worker);
        case Warming(_, _) => AttemptedInv(before, e.worker, e.ok);
        case Returned =>
      }
    }
  }

  /** Warm-up succeeds only after every channel was taken by one worker and warmed in one to
      three attempts, exactly when the pool has a worker or there is nothing to warm. */
  lemma SuccessExactly(maxParallel: int, tasks: nat, events: seq<Event>)
    requires Succeeds(Run(maxParallel, tasks, events))
    ensures var p := Run(maxParallel, tasks, events);
            maxParallel >= 1 || tasks == 0 <==>
            && |p.takenBy| == tasks
            && (forall t: nat :: t in p.warmed <==> t < tasks)
            && (forall t: nat | t < tasks :: t in p.attempts && 1 <= p.attempts[t] <= 3)
  {
    hide Run;
    RunInv(maxParallel, tasks, events);
    var p := Run(maxParallel, tasks, events);
    if maxParallel >= 1 && tasks > 0 {
      assert WorkerInv(p, 0);
    }
    forall t: nat ensures t in p.warmed <==> t < p.idx {
      assert TaskInv(p, t);
    }
    forall t: nat | t < p.idx ensures t in p.attempts && 1 <= p.attempts[t] <= MAX_RETRIES {
      assert TaskInv(p, t);
    }
    if maxParallel <= 0 && tasks > 0 {
      NothingTaken(maxParallel, tasks, events);
    }
  }

  lemma {:induction false} NothingTaken(maxParallel: int, tasks: nat, events: seq<Event>)
    requires maxParallel <= 0
    ensures Run(maxParallel, tasks, events) == Opened(maxParallel, tasks)
  {
    if events != [] {
      NothingTaken(maxParallel, tasks, events[..|events| - 1]);
    }
  }

  /** A reported channel was tried three times and never warmed, and no channel is reported or
      warmed unless some worker took it. */
  lemma ErrorsAreReal(maxParallel: int, tasks: nat, events: seq<Event>, t: nat)
    ensures var p := Run(maxParallel, tasks, events);
            (t in p.errors ==> t in p.attempts && p.attempts[t] == 3 && t !in p.warmed) &&
            (t in p.errors || t in p.warmed ==> t < |p.takenBy| <= tasks)
  {
    hide Run;
    RunInv(maxParallel, tasks, events);
    assert TaskInv(Run(maxParallel, tasks, events), t);
  }

  // Attempts, read off the events.

  /** Does the last event end an attempt at task `t`: is it of the worker that warms it? */
  predicate Attempts(maxParallel: int, tasks: nat, events: seq<Event>, t: nat)
    requires events != []
  {
    var p, i := Run(maxParallel, tasks, events[..|events| - 1]), events[|events| - 1].worker;
    i < |p.workers| && p.workers[i].Warming? && p.workers[i].task == t
  }

  /** How the attempts at task `t` ended, in order. */
  function Outcomes(maxParallel: int, tasks: nat, events: seq<Event>, t: nat): seq<bool> {
    if events == [] then []
    else
      var before := events[..|events| - 1];
      Outcomes(maxParallel, tasks, before, t) +
      if Attempts(maxParallel, tasks, events, t) then [events[|events| - 1].ok] else []
  }

  /** The pool shows the outcomes `o` of task `t`. */
  ghost predicate Shows(p: Pool, t: nat, o: seq<bool>) {
    && |o| <= 3 && (forall k :: 0 <= k < |o| - 1 ==> !o[k])
    && (t in p.warmed <==> o != [] && o[|o| - 1])
    && (t in p.errors <==> |o| == 3 && !o[2])
    && (t in p.attempts <==> t < p.idx) && (t in p.attempts ==> p.attempts[t] == |o|)
    && (t >= p.idx ==> o == [])
  }

  lemma ShowsTake(p: Pool, i: nat, t: nat, o: seq<bool>)
    requires Shows(p, t, o) && i < |p.workers|
    ensures Shows(Take(p, i), t, o)
  {
  }

  lemma ShowsAttempt(p: Pool, i: nat, ok: bool, t: nat, o: seq<bool>)
    requires Inv(p) && Shows(p, t, o) && i < |p.workers| && p.workers[i].Warming?
    ensures Shows(Attempted(p, i, ok), t, if p.workers[i].task == t then o + [ok] else o)
  {
    assert WorkerInv(p, i);
    hide Inv, WorkerInv, TaskInv;
  }

  /** Over every run a channel is warmed exactly when its last attempt succeeded, reported exactly
      when three attempts failed, and never tried again after either. */
  lemma {:induction false} OutcomesExactly(maxParallel: int, tasks: nat, events: seq<Event>, t: nat)
    ensures Shows(Run(maxParallel, tasks, events), t, Outcomes(maxParallel, tasks, events, t))
  {
    if events != [] {
      hide Shows, Inv;
      var before, e := events[..|events| - 1], events[|events| - 1];
      var p, o := Run(maxParallel, tasks, before), Outcomes(maxParallel, tasks, before, t);
      OutcomesExactly(maxParallel, tasks, before, t);
      RunInv(maxParallel, tasks, before);
      assert o + [] == o;
      if e.worker < |p.workers| {
        match p.workers[e.worker]
        case AtTest => ShowsTake(p, e.worker, t, o);
        case Warming(_, _) => ShowsAttempt(p, e.worker, e.ok, t, o);
        case Returned =>
      }
    } else {
      NothingShown(maxParallel, tasks, t);
    }
  }

  lemma NothingShown(maxParallel: int, tasks: nat, t: nat)
    ensures Shows(Opened(maxParallel, tasks), t, [])
  {
  }

  /** As many workers as tasks and the configured parallelism allow, and none when that is not
      positive. */
  lemma SizeExactly(maxParallel: int, tasks: nat)
    ensures var n := Size(maxParallel, tasks);
            && n <= tasks && (n as int <= maxParallel || n == 0)
            && (n == tasks || n as int == maxParallel || (n == 0 && maxParallel < 0))
            && |Opened(maxParallel, tasks).workers| == n
  {
  }

  /** Once a channel is given up no further one is taken; until then the next one is, by a worker at
      its loop test. */
  lemma TakesExactly(p: Pool, e: Event)
    ensures var q := Step(p, e);
            var waits := e.worker < |p.workers| && p.workers[e.worker] == AtTest;
            var takes := waits && p.errors == [] && p.idx < p.tasks;
            && q.idx == p.idx + (if takes then 1 else 0)
            && (takes ==> q.workers[e.worker] == Warming(p.idx, 0) && q.takenBy == p.takenBy + [e.worker])
            && (!takes ==> q.takenBy == p.takenBy)
  {
  }
}
