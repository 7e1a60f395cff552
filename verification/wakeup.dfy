/** Consumers blocked in Dequeue on the queue's condition variable, as a step system: every
    step is one critical section of the queue's mutex. */
module Wakeup {
  import opened Common
  import opened JobOrder
  import opened JobOrderProofs

  type Consumer = nat

  // Asleep: inside Wait, not signalled.  Signalled: woken, waiting to reacquire the mutex.
  datatype World = World(queue: TierState, asleep: set<Consumer>, signalled: set<Consumer>)

  datatype Step =
    | Produce(job: Job, woken: Option<Consumer>)  // Enqueue, and whom Signal woke
    | Call(c: Consumer, now: int)                 // Dequeue is called: first pass
    | Resume(c: Consumer, now: int)               // Wait returns
    | Revoke(id: string)                          // Cancel
    | Shut                                        // Close, broadcasting

  const START: World := World(EMPTY, {}, {})

  ghost predicate Enabled(w: World, s: Step) {
    match s
    case Produce(_, woken) =>
      if w.queue.closed || w.asleep == {} then woken == None else woken.Some? && woken.value in w.asleep
    case Call(c, _) => c !in w.asleep + w.signalled
    case Resume(c, _) => c in w.signalled
    case Revoke(_) => true
    case Shut => true
  }

  /** One pass of the Dequeue loop by `c`: take a job and leave, or go to sleep. */
  function Pass(w: World, c: Consumer, now: int): World {
    var (q, r) := TierStep(w.queue, Dequeue(now));
    if r.job.Some? then w.(queue := q) else w.(queue := q, asleep := w.asleep + {c})
  }

  function Next(w: World, s: Step): World {
    match s
    case Produce(job, woken) =>
      var q := TierStep(w.queue, Enqueue(job)).0;
      if woken.None? then w.(queue := q)
      else World(q, w.asleep - {woken.value}, w.signalled + {woken.value})
    case Call(c, now) => Pass(w, c, now)
    case Resume(c, now) =>
      var awake := w.(signalled := w.signalled - {c});
      if w.queue.closed then awake else Pass(awake, c, now)
    case Revoke(id) => w.(queue := TierStep(w.queue, Cancel(id)).0)
    case Shut => World(TierStep(w.queue, Close).0, {}, w.signalled + w.asleep)
  }

  ghost predicate CanRun(w: World, steps: seq<Step>)
    decreases |steps|
  {
    steps != [] ==> Enabled(w, steps[0]) && CanRun(Next(w, steps[0]), steps[1..])
  }

  function Run(w: World, steps: seq<Step>): World
    decreases |steps|
  {
    if steps == [] then w else Run(Next(w, steps[0]), steps[1..])
  }

  function QueueLength(w: World): nat {
    JobsAbove(w.queue.tiers, TIERS)
  }

  ghost predicate NoLostWakeup(w: World) {
    && w.asleep !! w.signalled
    && (w.asleep != {} ==> QueueLength(w) <= |w.signalled|)
    && (w.asleep != {} && w.queue.closed ==> QueueLength(w) == 0)
  }

  // ---------------------------------------------------------------- queue length

  lemma TakeLength(q: Tiers, now: int)
    ensures var (q', job) := Take(q, now);
            && (job.Some? <==> JobsAbove(q, TIERS) > 0)
            && JobsAbove(q', TIERS) == JobsAbove(q, TIERS) - if job.Some? then 1 else 0
  {
    var u := UrgentTier(q, now, 0);
    var f := FrontTier(q, 0);
    if u < TIERS {
      JobsAboveUpdate(q, TIERS, u, WithoutId(q[u], q[u][FirstUrgent(q[u], now)].id));
    } else if f < TIERS {
      JobsAboveUpdate(q, TIERS, f, q[f][1..]);
    } else {
      NoJobs(q, TIERS);
    }
  }

  lemma NoJobs(q: Tiers, p: nat)
    requires p <= TIERS && forall k | 0 <= k < p :: q[k] == []
    ensures JobsAbove(q, p) == 0
  {
  }

  lemma DropLength(q: Tiers, id: string)
    ensures JobsAbove(Drop(q, id).0, TIERS) <= JobsAbove(q, TIERS)
  {
    var p := TierOfId(q, id, 0);
    if p < TIERS {
      JobsAboveUpdate(q, TIERS, p, WithoutId(q[p], id));
    }
  }

  // ---------------------------------------------------------------- the invariant over runs

  lemma PassKeeps(w: World, c: Consumer, now: int)
    requires c !in w.signalled && w.asleep !! w.signalled
    requires w.asleep != {} ==> QueueLength(w) <= |w.signalled| + 1
    requires w.asleep != {} && w.queue.closed ==> QueueLength(w) == 0
    ensures NoLostWakeup(Pass(w, c, now))
  {
    TakeLength(w.queue.tiers, now);
  }

  lemma StepKeeps(w: World, s: Step)
    requires NoLostWakeup(w) && Enabled(w, s)
    ensures NoLostWakeup(Next(w, s))
  {
    match s
    case Produce(job, woken) =>
      var f := Filed(job);
      JobsAboveUpdate(w.queue.tiers, TIERS, f.priority, w.queue.tiers[f.priority] + [f]);
    case Call(c, now) => PassKeeps(w, c, now);
    case Resume(c, now) =>
      if !w.queue.closed {
        PassKeeps(w.(signalled := w.signalled - {c}), c, now);
      }
    case Revoke(id) => DropLength(w.queue.tiers, id);
    case Shut =>
  }

  /** The queue operations behind the steps.  A consumer resumed after Close does not look at the queue. */
  function QueueEvents(w: World, steps: seq<Step>): seq<Event>
    decreases |steps|
  {
    if steps == [] then []
    else
      var rest := QueueEvents(Next(w, steps[0]), steps[1..]);
      match steps[0]
      case Produce(job, _) => [Enqueue(job)] + rest
      case Call(_, now) => [Dequeue(now)] + rest
      case Resume(_, now) => if w.queue.closed then rest else [Dequeue(now)] + rest
      case Revoke(id) => [Cancel(id)] + rest
      case Shut => [Close] + rest
  }

  /** Every run of the waiting consumers is a run of the queue, to which the theorems about its order,
      its books and its urgent jobs apply. */
  lemma {:induction false} QueueRuns(w: World, steps: seq<Step>)
    ensures Run(w, steps).queue == TierRun(w.queue, QueueEvents(w, steps)).0
    decreases |steps|
  {
    hide TierStep;
    if steps != [] {
      var v := Next(w, steps[0]);
      QueueRuns(v, steps[1..]);
      var rest := QueueEvents(v, steps[1..]);
      var evs := QueueEvents(w, steps);
      if evs != rest {
        assert evs == [evs[0]] + rest && evs[1..] == rest;
      }
    }
  }

  /** In every reachable state, a sleeping consumer means the queued jobs are all spoken for by
      consumers already woken, and after Close that there are none. */
  lemma {:induction false} NeverLost(w: World, steps: seq<Step>)
    requires NoLostWakeup(w) && CanRun(w, steps)
    ensures NoLostWakeup(Run(w, steps))
    decreases |steps|
  {
    if steps != [] {
      StepKeeps(w, steps[0]);
      NeverLost(Next(w, steps[0]), steps[1..]);
    }
  }

  /** From the start: a job never sits queued while every blocked consumer sleeps; some consumer is
      then woken, and whichever woken one runs next comes away with a job. */
  lemma JobsAreSpokenFor(steps: seq<Step>)
    requires CanRun(START, steps)
    ensures var w := Run(START, steps);
            QueueLength(w) > 0 && w.asleep != {} ==>
              && !w.queue.closed && w.signalled != {}
              && forall c: Consumer, now: int | c in w.signalled :: c !in Next(w, Resume(c, now)).asleep
  {
    NeverLost(START, steps);
    var w := Run(START, steps);
    if QueueLength(w) > 0 && w.asleep != {} {
      forall c: Consumer, now: int | c in w.signalled
        ensures c !in Next(w, Resume(c, now)).asleep
      {
        TakeLength(w.queue.tiers, now);
      }
    }
  }

  ghost predicate OnlyResumes(steps: seq<Step>) {
    forall i | 0 <= i < |steps| :: steps[i].Resume?
  }

  lemma ResumeServes(w: World, c: Consumer, now: int)
    requires w.asleep !! w.signalled && !w.queue.closed && c in w.signalled
    ensures var v := Next(w, Resume(c, now));
            && !v.queue.closed && v.asleep !! v.signalled && |v.signalled| == |w.signalled| - 1
            && QueueLength(v) == Max(0, QueueLength(w) - 1)
            && |v.asleep| == |w.asleep| + 1 - (QueueLength(w) - QueueLength(v))
  {
    TakeLength(w.queue.tiers, now);
  }

  /** When woken consumers resume one after the other on an open queue, as many of them are served as
      there are jobs, and only the others go back to sleep. */
  lemma {:induction false} WokenAreServed(w: World, steps: seq<Step>)
    requires w.asleep !! w.signalled && !w.queue.closed && CanRun(w, steps) && OnlyResumes(steps)
    ensures var v := Run(w, steps);
            && |v.signalled| == |w.signalled| - |steps|
            && QueueLength(v) == Max(0, QueueLength(w) - |steps|)
            && |v.asleep| == |w.asleep| + |steps| - (QueueLength(w) - QueueLength(v))
    decreases |steps|
  {
    if steps != [] {
      var Resume(c, now) := steps[0];
      ResumeServes(w, c, now);
      WokenAreServed(Next(w, steps[0]), steps[1..]);
    }
  }

  /** From the start: once all woken consumers have resumed, with a consumer left asleep, the queue is
      empty.  The signals given are enough for every job. */
  lemma WokenAreEnough(steps: seq<Step>, resumes: seq<Step>)
    requires CanRun(START, steps)
    requires var w := Run(START, steps);
             w.asleep != {} && CanRun(w, resumes) && OnlyResumes(resumes) && Run(w, resumes).signalled == {}
    ensures QueueLength(Run(Run(START, steps), resumes)) == 0
  {
    NeverLost(START, steps);
    var w := Run(START, steps);
    if w.queue.closed {
      StillEmpty(w, resumes);
    } else {
      WokenAreServed(w, resumes);
    }
  }

  lemma {:induction false} StillEmpty(w: World, resumes: seq<Step>)
    requires w.queue.closed && QueueLength(w) == 0 && CanRun(w, resumes) && OnlyResumes(resumes)
    ensures QueueLength(Run(w, resumes)) == 0
    decreases |resumes|
  {
    if resumes != [] {
      StillEmpty(Next(w, resumes[0]), resumes[1..]);
    }
  }

  // ---------------------------------------------------------------- Dequeue after Close

  ghost predicate NoFurtherClose(steps: seq<Step>) {
    Shut !in steps
  }

  lemma {:induction false} StaysAsleep(w: World, c: Consumer, steps: seq<Step>)
    requires w.queue.closed && c in w.asleep && c !in w.signalled && w.asleep !! w.signalled
    requires CanRun(w, steps) && NoFurtherClose(steps)
    ensures c in Run(w, steps).asleep
    decreases |steps|
  {
    if steps != [] {
      var s := steps[0];
      assert s in steps;
      StaysAsleep(Next(w, s), c, steps[1..]);
    }
  }

  ghost predicate Calls(steps: seq<Step>, c: Consumer) {
    exists i :: 0 <= i < |steps| && steps[i].Call? && steps[i].c == c
  }

  ghost predicate Resumes(steps: seq<Step>, c: Consumer) {
    exists i :: 0 <= i < |steps| && steps[i].Resume? && steps[i].c == c
  }

  ghost predicate Blocked(w: World, c: Consumer) {
    c in w.asleep || c in w.signalled
  }

  lemma FirstOrLater(steps: seq<Step>, c: Consumer)
    requires steps != []
    ensures Calls(steps, c) <==> (steps[0].Call? && steps[0].c == c) || Calls(steps[1..], c)
    ensures Resumes(steps, c) <==> (steps[0].Resume? && steps[0].c == c) || Resumes(steps[1..], c)
  {
    var rest := steps[1..];
    assert forall i | 0 <= i < |rest| :: rest[i] == steps[i + 1];
    assert forall i | 0 < i < |steps| :: steps[i] == rest[i - 1];
  }

  lemma {:induction false} AnsweredWhenClosed(w: World, c: Consumer, steps: seq<Step>)
    requires w.queue.closed && c !in w.asleep && CanRun(w, steps) && !Calls(steps, c)
    ensures Run(w, steps).queue.closed && c !in Run(w, steps).asleep
    ensures c in Run(w, steps).signalled <==> c in w.signalled && !Resumes(steps, c)
    decreases |steps|
  {
    if steps != [] {
      FirstOrLater(steps, c);
      ClosedStep(w, c, steps[0]);
      AnsweredWhenClosed(Next(w, steps[0]), c, steps[1..]);
    }
  }

  lemma ClosedStep(w: World, c: Consumer, s: Step)
    requires w.queue.closed && c !in w.asleep && Enabled(w, s) && !(s.Call? && s.c == c)
    ensures var v := Next(w, s);
            v.queue.closed && c !in v.asleep && (c in v.signalled <==> c in w.signalled && !(s.Resume? && s.c == c))
  {
  }

  /** In every reachable state Close wakes everybody, and whatever happens afterwards, each consumer
      blocked then is answered by its one next step: before it, it is woken; after it, it is blocked no
      more until it calls again. */
  lemma CloseAnswersAll(steps: seq<Step>, c: Consumer, later: seq<Step>)
    requires CanRun(START, steps) && Blocked(Run(START, steps), c)
    requires CanRun(Next(Run(START, steps), Shut), later) && !Calls(later, c)
    ensures Next(Run(START, steps), Shut).asleep == {}
    ensures var v := Run(Next(Run(START, steps), Shut), later);
            && c !in v.asleep && (c in v.signalled <==> !Resumes(later, c))
            && (Blocked(v, c) <==> !Resumes(later, c))
  {
    NeverLost(START, steps);
    AnsweredWhenClosed(Next(Run(START, steps), Shut), c, later);
  }

  lemma {:induction false} WokenTakeNothing(w: World, steps: seq<Step>)
    requires w.queue.closed && CanRun(w, steps)
    requires forall i | 0 <= i < |steps| :: !steps[i].Call? && !steps[i].Revoke?
    ensures Run(w, steps).queue.tiers == w.queue.tiers
    decreases |steps|
  {
    if steps != [] {
      var s := steps[0];
      assert !s.Call? && !s.Revoke?;
      WokenTakeNothing(Next(w, s), steps[1..]);
    }
  }

  /** The consumers woken by Close take no job with them: what was queued then stays queued until
      someone calls Dequeue or Cancel. */
  lemma CloseLeavesJobs(w: World, steps: seq<Step>)
    requires CanRun(Next(w, Shut), steps)
    requires forall i | 0 <= i < |steps| :: !steps[i].Call? && !steps[i].Revoke?
    ensures Run(Next(w, Shut), steps).queue.tiers == w.queue.tiers
  {
    WokenTakeNothing(Next(w, Shut), steps);
  }

  /** Woken on an open queue by the arrival of its first job, a consumer gets it. */
  lemma WakeAndResume(w: World, c: Consumer, job: Job, now: int)
    requires c in w.asleep && c !in w.signalled && !w.queue.closed
    ensures var steps := [Produce(job, Some(c)), Resume(c, now)];
            && CanRun(w, steps) && NoFurtherClose(steps)
            && c !in Run(w, steps).asleep + Run(w, steps).signalled
  {
    var steps := [Produce(job, Some(c)), Resume(c, now)];
    var v := Next(w, steps[0]);
    var f := Filed(job);
    JobsAboveUpdate(w.queue.tiers, TIERS, f.priority, w.queue.tiers[f.priority] + [f]);
    TakeLength(v.queue.tiers, now);
    assert steps[1..] == [Resume(c, now)] && steps[1..][1..] == [];
    assert Enabled(v, steps[1]);
    var u := Next(v, steps[1]);
    assert c !in u.asleep + u.signalled;
    assert Run(v, steps[1..]) == u && Run(w, steps) == u;
    assert CanRun(u, []) && CanRun(v, steps[1..]);
  }

  /** A consumer whose Dequeue call is never answered, whatever the others do short of closing
      the queue again: exactly the one that calls it on a closed and empty queue. */
  lemma SleepsForeverIff(w: World, c: Consumer, now: int)
    requires w.asleep !! w.signalled && Enabled(w, Call(c, now))
    ensures (forall steps | CanRun(Next(w, Call(c, now)), steps) && NoFurtherClose(steps) ::
               var v := Run(Next(w, Call(c, now)), steps); c in v.asleep + v.signalled)
            <==> w.queue.closed && QueueLength(w) == 0
  {
    var w' := Next(w, Call(c, now));
    TakeLength(w.queue.tiers, now);
    if w.queue.closed && QueueLength(w) == 0 {
      forall steps | CanRun(w', steps) && NoFurtherClose(steps) ensures c in Run(w', steps).asleep {
        StaysAsleep(w', c, steps);
      }
    } else if QueueLength(w) > 0 {
      assert CanRun(w', []) && NoFurtherClose([]) && c !in Run(w', []).asleep + Run(w', []).signalled;
    } else {
      WakeAndResume(w', c, Job("", 0, None), now);
    }
  }
}
