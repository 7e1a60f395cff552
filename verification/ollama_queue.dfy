/** The job queue object whose atomic sections are the steps of the worker pool.  Each method is
    the code of one goroutine between two points where others may run. */
module OllamaQueue {
  import opened Common
  import WorkerPool

  type JobId = WorkerPool.JobId

  class OllamaQueue {
    const maxConcurrent: nat
    var jobCh: seq<JobId>
    var stopped: bool
    var running: set<JobId>
    var completed: set<JobId>
    // Where each worker goroutine stands, and the status field of every job submitted.
    var workers: seq<WorkerPool.Phase>
    var status: map<JobId, WorkerPool.Status>

    ghost var accepted: seq<JobId>
    ghost var taken: seq<JobId>
    ghost var executions: seq<JobId>

    ghost function View(): WorkerPool.Pool
      reads this
    {
      WorkerPool.Pool(jobCh, stopped, workers, running, completed, status, accepted, taken, executions)
    }

    ghost predicate Valid()
      reads this
    {
      WorkerPool.Inv(View()) && |workers| == maxConcurrent
    }

    /** NewOllamaQueue followed by Start. */
    constructor (maxConcurrent: nat)
      ensures Valid() && View() == WorkerPool.Started(maxConcurrent)
    {
      this.maxConcurrent := maxConcurrent;
      jobCh, stopped, running, completed, status := [], false, {}, {}, map[];
      workers := seq(maxConcurrent, _ => WorkerPool.Waiting);
      accepted, taken, executions := [], [], [];
      new;
      WorkerPool.StartedInv(maxConcurrent);
      assert workers == WorkerPool.Started(maxConcurrent).workers;
    }

    method Submit(job: JobId) returns (ok: bool)
      requires Valid() && job !in accepted
      modifies this
      ensures Valid() && View() == WorkerPool.Next(old(View()), WorkerPool.Submit(job))
      ensures ok == (|old(jobCh)| < 1000)
      ensures jobCh == if ok then old(jobCh) + [job] else old(jobCh)
      ensures status == if ok then old(status)[job := WorkerPool.Pending] else old(status)
    {
      WorkerPool.StepKeeps(View(), WorkerPool.Submit(job));
      if |jobCh| < 1000 {
        status := status[job := WorkerPool.Pending];
        jobCh := jobCh + [job];
        accepted := accepted + [job];
        return true;
      }
      return false;
    }

    /** close(stopCh); Stop returns once every worker has left. */
    method CloseStop()
      requires Valid() && !stopped
      modifies this
      ensures Valid() && View() == WorkerPool.Next(old(View()), WorkerPool.Stop)
      ensures stopped && workers == old(workers) && jobCh == old(jobCh)
    {
      WorkerPool.StepKeeps(View(), WorkerPool.Stop);
      stopped := true;
    }

    method WorkerReceive(w: nat)
      requires Valid() && WorkerPool.Enabled(View(), WorkerPool.Receive(w))
      modifies this
      ensures Valid() && View() == WorkerPool.Next(old(View()), WorkerPool.Receive(w))
    {
      WorkerPool.StepKeeps(View(), WorkerPool.Receive(w));
      var job := jobCh[0];
      jobCh := jobCh[1..];
      taken := taken + [job];
      status := status[job := WorkerPool.Running];
      workers := workers[w := WorkerPool.Received(job)];
    }

    method WorkerRegister(w: nat)
      requires Valid() && WorkerPool.Enabled(View(), WorkerPool.Register(w))
      modifies this
      ensures Valid() && View() == WorkerPool.Next(old(View()), WorkerPool.Register(w))
    {
      WorkerPool.StepKeeps(View(), WorkerPool.Register(w));
      var job := workers[w].job;
      running := running + {job};
      executions := executions + [job];
      workers := workers[w := WorkerPool.Executing(job)];
    }

    /** executeJob, of which only the outcome is kept. */
    method WorkerExecute(w: nat, ok: bool)
      requires Valid() && WorkerPool.Enabled(View(), WorkerPool.Execute(w, ok))
      modifies this
      ensures Valid() && View() == WorkerPool.Next(old(View()), WorkerPool.Execute(w, ok))
      ensures status == old(status)[old(workers[w].job) := if ok then WorkerPool.Completed else WorkerPool.Failed]
    {
      WorkerPool.StepKeeps(View(), WorkerPool.Execute(w, ok));
      var job := workers[w].job;
      if ok {
        status := status[job := WorkerPool.Completed];
      } else {
        status := status[job := WorkerPool.Failed];
      }
      workers := workers[w := WorkerPool.Executed(job)];
    }

    method WorkerFinish(w: nat)
      requires Valid() && WorkerPool.Enabled(View(), WorkerPool.Finish(w))
      modifies this
      ensures Valid() && View() == WorkerPool.Next(old(View()), WorkerPool.Finish(w))
    {
      WorkerPool.StepKeeps(View(), WorkerPool.Finish(w));
      var job := workers[w].job;
      running := running - {job};
      completed := completed + {job};
      workers := workers[w := WorkerPool.Waiting];
    }

    method WorkerExit(w: nat)
      requires Valid() && WorkerPool.Enabled(View(), WorkerPool.Exit(w))
      modifies this
      ensures Valid() && View() == WorkerPool.Next(old(View()), WorkerPool.Exit(w))
    {
      WorkerPool.StepKeeps(View(), WorkerPool.Exit(w));
      workers := workers[w := WorkerPool.Exited];
    }

    /** A job can be looked up from the moment it is about to be executed, for good. */
    method GetJob(id: JobId) returns (s: Option<WorkerPool.Status>)
      requires Valid()
      ensures s.Some? <==> id in executions
      ensures s.Some? ==> id in status && s.value == status[id] && s.value != WorkerPool.Pending
      ensures id in completed ==> s.Some? && s.value != WorkerPool.Running
      ensures s == Some(WorkerPool.Completed) <==> WorkerPool.Has(View(), id, WorkerPool.Completed)
      ensures s == Some(WorkerPool.Failed) <==> WorkerPool.Has(View(), id, WorkerPool.Failed)
    {
      if id in running {
        WorkerPool.RunningStatus(View(), id);
        return Some(status[id]);
      }
      if id in completed {
        return Some(status[id]);
      }
      return None;
    }

    method GetAvailableCapacity() returns (free: int)
      requires Valid()
      ensures free == maxConcurrent - |running| >= 0
    {
      WorkerPool.RunningBound(View());
      free := maxConcurrent - |running|;
      if free < 0 {
        free := 0;
      }
    }
  }
}
