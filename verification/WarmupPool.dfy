/** The variables runWarmup's workers share, and the stretches of runBatch between awaits. */
module WarmupPool {
  import opened WarmupPoolModel

  class WarmupPool {
    const tasks: nat
    var workers: seq<Stage>
    var idx: nat
    var errors: seq<nat>
    ghost var takenBy: seq<nat>
    ghost var warmed: set<nat>
    ghost var attempts: map<nat, nat>

    ghost function View(): Pool
      reads this
    {
      Pool(tasks, workers, idx, errors, takenBy, warmed, attempts)
    }

    constructor (maxParallel: int, tasks: nat)
      ensures View() == Opened(maxParallel, tasks)
    {
      this.tasks := tasks;
      idx, errors, takenBy, warmed, attempts := 0, [], [], {}, map[];
      var pool: seq<Stage> := [];
      while |pool| < maxParallel && |pool| < tasks
        invariant |pool| <= Size(maxParallel, tasks)
        invariant forall i :: 0 <= i < |pool| ==> pool[i] == AtTest
        decreases tasks - |pool|
      {
        pool := pool + [AtTest];
      }
      workers := pool;
    }

    /** The loop test and the shared counter. */
    method TakeTask(worker: nat)
      requires worker < |workers| && workers[worker] == AtTest
      modifies this
      ensures forall ok :: View() == Step(old(View()), RunsOn(worker, ok))
    {
      if idx < tasks && |errors| == 0 {
        var task := idx;
        idx := idx + 1;
        takenBy := takenBy + [worker];
        attempts := attempts[task := 0];
        workers := workers[worker := Warming(task, 0)];
      } else {
        workers := workers[worker := Returned];
      }
    }

    /** The attempt a worker awaits has ended. */
    method OnAttempt(worker: nat, ok: bool)
      requires worker < |workers| && workers[worker].Warming?
      modifies this
      ensures View() == Step(old(View()), RunsOn(worker, ok))
    {
      var task, attempt := workers[worker].task, workers[worker].failed;
      attempts := attempts[task := (if task in attempts then attempts[task] else 0) + 1];
      if ok {
        warmed := warmed + {task};
        workers := workers[worker := AtTest];
      } else if attempt == MAX_RETRIES - 1 {
        errors := errors + [task];
        workers := workers[worker := AtTest];
      } else {
        workers := workers[worker := Warming(task, attempt + 1)];
      }
    }

    /** Promise.all and the throw: does runWarmup return normally? Only asked when all returned. */
    method Finish() returns (ok: bool)
      requires AllReturned(View())
      ensures ok <==> Succeeds(View())
    {
      return |errors| == 0;
    }
  }
}
