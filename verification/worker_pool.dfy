/** The Ollama worker pool as a step system: submitters, one program counter per worker, the
    buffered channel, and the running/completed maps written in separate critical sections. */
module WorkerPool {
  import opened Common

  type JobId = string

  const CHANNEL_CAPACITY: nat := 1000

  datatype Status = Pending | Running | Completed | Failed

  /** Where a worker stands in its loop. */
  datatype Phase =
    | Waiting                // in select
    | Received(job: JobId)   // marked running, not yet in the running map
    | Executing(job: JobId)  // registered in the running map
    | Executed(job: JobId)   // terminal status written, maps not yet updated
    | Exited

  // `accepted`, `taken` and `executions` are logs: jobs accepted by Submit, jobs received from the
  // channel, and calls of executeJob, in order.
  datatype Pool = Pool(
    channel: seq<JobId>, stopped: bool, workers: seq<Phase>,
    running: set<JobId>, completed: set<JobId>, status: map<JobId, Status>,
    accepted: seq<JobId>, taken: seq<JobId>, executions: seq<JobId>)

  datatype Step =
    | Submit(job: JobId)
    | Stop
    | Receive(w: nat)
    | Register(w: nat)
    | Execute(w: nat, ok: bool)
    | Finish(w: nat)
    | Exit(w: nat)

  function Started(maxConcurrent: nat): Pool {
    Pool([], false, seq(maxConcurrent, _ => Waiting), {}, {}, map[], [], [], [])
  }

  /** Submitted jobs carry IDs not accepted before; Stop is called once. */
  predicate Enabled(p: Pool, s: Step) {
    match s
    case Submit(job) => job !in p.accepted
    case Stop => !p.stopped
    case Receive(w) => w < |p.workers| && p.workers[w].Waiting? && p.channel != []
    case Register(w) => w < |p.workers| && p.workers[w].Received?
    case Execute(w, _) => w < |p.workers| && p.workers[w].Executing?
    case Finish(w) => w < |p.workers| && p.workers[w].Executed?
    case Exit(w) => w < |p.workers| && p.workers[w].Waiting? && p.stopped
  }

  function Next(p: Pool, s: Step): Pool
    requires Enabled(p, s)
  {
    match s
    case Submit(job) =>
      if |p.channel| >= CHANNEL_CAPACITY then p
      else p.(channel := p.channel + [job], accepted := p.accepted + [job], status := p.status[job := Pending])
    case Stop => p.(stopped := true)
    case Receive(w) =>
      var job := p.channel[0];
      p.(channel := p.channel[1..], taken := p.taken + [job],
         workers := p.workers[w := Received(job)], status := p.status[job := Running])
    case Register(w) =>
      var job := p.workers[w].job;
      p.(workers := p.workers[w := Executing(job)], running := p.running + {job}, executions := p.executions + [job])
    case Execute(w, ok) =>
      var job := p.workers[w].job;
      p.(workers := p.workers[w := Executed(job)], status := p.status[job := if ok then Completed else Failed])
    case Finish(w) =>
      var job := p.workers[w].job;
      p.(workers := p.workers[w := Waiting], running := p.running - {job}, completed := p.completed + {job})
    case Exit(w) => p.(workers := p.workers[w := Exited])
  }

  ghost predicate CanRun(p: Pool, steps: seq<Step>)
    decreases |steps|
  {
    steps != [] ==> Enabled(p, steps[0]) && CanRun(Next(p, steps[0]), steps[1..])
  }

  function Run(p: Pool, steps: seq<Step>): Pool
    requires CanRun(p, steps)
    decreases |steps|
  {
    if steps == [] then p else Run(Next(p, steps[0]), steps[1..])
  }

  /** Stop has returned: the channel is closed and every worker is done. */
  predicate StopReturned(p: Pool) {
    p.stopped && forall w | 0 <= w < |p.workers| :: p.workers[w].Exited?
  }

  function GetAvailableCapacity(p: Pool): int {
    Max(0, |p.workers| - |p.running|)
  }

  // ---------------------------------------------------------------- the invariant

  predicate HasJob(f: Phase) {
    f.Received? || f.Executing? || f.Executed?
  }

  predicate InExecution(f: Phase) {
    f.Executing? || f.Executed?
  }

  /** Jobs received by a worker but not yet visible in the running map. */
  function InHands(p: Pool): set<JobId> {
    set w | 0 <= w < |p.workers| && p.workers[w].Received? :: p.workers[w].job
  }

  predicate NoRepeats(s: seq<JobId>) {
    forall a, b | 0 <= a < b < |s| :: s[a] != s[b]
  }

  predicate Runs(p: Pool, w: nat, j: JobId) {
    w < |p.workers| && InExecution(p.workers[w]) && p.workers[w].job == j
  }

  predicate HoldsInHand(p: Pool, w: nat, j: JobId) {
    w < |p.workers| && p.workers[w].Received? && p.workers[w].job == j
  }

  ghost predicate Placed(p: Pool) {
    && (forall v, w | 0 <= v < w < |p.workers| && HasJob(p.workers[v]) && HasJob(p.workers[w]) ::
          p.workers[v].job != p.workers[w].job)
    && (forall w | 0 <= w < |p.workers| && HasJob(p.workers[w]) ::
          p.workers[w].job in p.taken && p.workers[w].job !in p.completed)
    && (forall w | 0 <= w < |p.workers| && InExecution(p.workers[w]) :: p.workers[w].job in p.running)
    && (forall j | j in p.running :: exists w :: Runs(p, w, j))
    && (forall j | j in p.taken && j !in p.completed && j !in p.running :: exists w :: HoldsInHand(p, w, j))
    && (forall j | j in p.completed :: j in p.taken)
  }

  predicate Has(p: Pool, j: JobId, status: Status) {
    j in p.status && p.status[j] == status
  }

  predicate IsTerminal(p: Pool, j: JobId) {
    Has(p, j, Completed) || Has(p, j, Failed)
  }

  ghost predicate StatusesMatch(p: Pool) {
    && (forall j | j in p.channel :: Has(p, j, Pending))
    && (forall w | 0 <= w < |p.workers| && HasJob(p.workers[w]) ::
          if p.workers[w].Executed? then IsTerminal(p, p.workers[w].job) else Has(p, p.workers[w].job, Running))
    && (forall j | j in p.completed :: IsTerminal(p, j))
  }

  ghost predicate StatusOfAccepted(p: Pool) {
    forall j :: j in p.status <==> j in p.accepted
  }

  ghost predicate Inv(p: Pool) {
    && p.accepted == p.taken + p.channel
    && |p.channel| <= CHANNEL_CAPACITY
    && NoRepeats(p.accepted)
    && Placed(p)
    && StatusesMatch(p)
    && StatusOfAccepted(p)
    && ExecutionsMatch(p)
    && EndedMatch(p)
  }

  /** No job was executed twice, and those executed are the ones running or completed. */
  ghost predicate ExecutionsMatch(p: Pool) {
    && NoRepeats(p.executions)
    && forall j :: j in p.executions <==> j in p.running || j in p.completed
  }

  /** What has ended was executed. */
  ghost predicate EndedMatch(p: Pool) {
    forall j | IsTerminal(p, j) :: j in p.executions
  }

  lemma StartedInv(n: nat)
    ensures Inv(Started(n))
  {
  }

  /** When only worker `w` moves, the others keep what they run and hold. */
  lemma OthersStay(p: Pool, p': Pool, w: nat)
    requires |p'.workers| == |p.workers|
    requires forall v | 0 <= v < |p.workers| && v != w :: p'.workers[v] == p.workers[v]
    ensures forall v, j | v != w && Runs(p, v, j) :: Runs(p', v, j)
    ensures forall v, j | v != w && HoldsInHand(p, v, j) :: HoldsInHand(p', v, j)
  {
  }

  lemma SplitApart(a: seq<JobId>, b: seq<JobId>)
    requires NoRepeats(a + b)
    ensures forall j | j in a :: j !in b
  {
    forall m, n | 0 <= m < |a| && 0 <= n < |b| ensures a[m] != b[n] {
      assert a[m] == (a + b)[m] && b[n] == (a + b)[|a| + n];
    }
  }

  lemma HeadIsFresh(p: Pool)
    requires Inv(p) && p.channel != []
    ensures p.channel[0] !in p.taken
    ensures forall k | 0 < k < |p.channel| :: p.channel[k] != p.channel[0]
  {
    SplitApart(p.taken, p.channel);
    forall k | 0 < k < |p.channel| ensures p.channel[k] != p.channel[0] {
      assert p.channel[k] == p.accepted[|p.taken| + k] && p.channel[0] == p.accepted[|p.taken|];
    }
  }

  lemma ReceivePlaces(p: Pool, w: nat)
    requires Inv(p) && Enabled(p, Receive(w))
    ensures Placed(Next(p, Receive(w)))
  {
    hide StatusesMatch, StatusOfAccepted, ExecutionsMatch, EndedMatch;
    var p' := Next(p, Receive(w));
    HeadIsFresh(p);
    OthersStay(p, p', w);
    assert HoldsInHand(p', w, p.channel[0]);
  }

  lemma ReceiveStatuses(p: Pool, w: nat)
    requires Inv(p) && Enabled(p, Receive(w))
    ensures StatusesMatch(Next(p, Receive(w)))
  {
    hide ExecutionsMatch, EndedMatch, StatusOfAccepted;
    var p' := Next(p, Receive(w));
    HeadIsFresh(p);
    forall j | j in p'.channel ensures Has(p', j, Pending) {
      assert j in p.channel && Has(p, j, Pending);
    }
  }

  lemma SubmitPlaces(p: Pool, s: Step)
    requires Inv(p) && Enabled(p, s) && !WorkerStep(s)
    ensures Placed(Next(p, s))
  {
    hide StatusesMatch, StatusOfAccepted, ExecutionsMatch, EndedMatch, NoRepeats;
    OthersStay(p, Next(p, s), |p.workers|);
  }

  lemma RegisterPlaces(p: Pool, w: nat)
    requires Inv(p) && Enabled(p, Register(w))
    ensures Placed(Next(p, Register(w)))
  {
    hide StatusesMatch, StatusOfAccepted, ExecutionsMatch, EndedMatch, NoRepeats;
    var p' := Next(p, Register(w));
    OthersStay(p, p', w);
    assert Runs(p', w, p.workers[w].job);
  }

  lemma ExecutePlaces(p: Pool, w: nat, ok: bool)
    requires Inv(p) && Enabled(p, Execute(w, ok))
    ensures Placed(Next(p, Execute(w, ok)))
  {
    hide StatusesMatch, StatusOfAccepted, ExecutionsMatch, EndedMatch, NoRepeats;
    var p' := Next(p, Execute(w, ok));
    OthersStay(p, p', w);
    assert Runs(p', w, p.workers[w].job);
  }

  lemma FinishPlaces(p: Pool, w: nat)
    requires Inv(p) && Enabled(p, Finish(w))
    ensures Placed(Next(p, Finish(w)))
  {
    hide StatusesMatch, StatusOfAccepted, ExecutionsMatch, EndedMatch, NoRepeats;
    OthersStay(p, Next(p, Finish(w)), w);
  }

  lemma ExitPlaces(p: Pool, w: nat)
    requires Inv(p) && Enabled(p, Exit(w))
    ensures Placed(Next(p, Exit(w)))
  {
    hide StatusesMatch, StatusOfAccepted, ExecutionsMatch, EndedMatch, NoRepeats;
    OthersStay(p, Next(p, Exit(w)), w);
  }

  lemma PlacesKept(p: Pool, s: Step)
    requires Inv(p) && Enabled(p, s)
    ensures Placed(Next(p, s))
  {
    hide Inv, Next, Placed;
    match s
    case Submit(_) => SubmitPlaces(p, s);
    case Stop => SubmitPlaces(p, s);
    case Receive(w) => ReceivePlaces(p, w);
    case Register(w) => RegisterPlaces(p, w);
    case Execute(w, ok) => ExecutePlaces(p, w, ok);
    case Finish(w) => FinishPlaces(p, w);
    case Exit(w) => ExitPlaces(p, w);
  }

  lemma ExecuteStatuses(p: Pool, w: nat, ok: bool)
    requires Inv(p) && Enabled(p, Execute(w, ok))
    ensures StatusesMatch(Next(p, Execute(w, ok)))
  {
    hide ExecutionsMatch, EndedMatch, StatusOfAccepted;
    SplitApart(p.taken, p.channel);
    assert p.workers[w].job !in p.channel && p.workers[w].job !in p.completed;
    hide NoRepeats;
  }

  lemma SubmitStatuses(p: Pool, job: JobId)
    requires Inv(p) && Enabled(p, Submit(job))
    ensures StatusesMatch(Next(p, Submit(job)))
  {
    hide ExecutionsMatch, EndedMatch, NoRepeats;
    assert forall j | j in p.taken :: j in p.accepted;
  }

  lemma SameStatuses(p: Pool, s: Step)
    requires Inv(p) && Enabled(p, s) && !s.Submit? && !s.Receive? && !s.Execute?
    ensures StatusesMatch(Next(p, s))
  {
    hide ExecutionsMatch, EndedMatch, StatusOfAccepted, NoRepeats, Placed;
  }

  lemma StatusesKept(p: Pool, s: Step)
    requires Inv(p) && Enabled(p, s)
    ensures StatusesMatch(Next(p, s))
  {
    hide Inv, Next, StatusesMatch;
    match s
    case Submit(job) => SubmitStatuses(p, job);
    case Receive(w) => ReceiveStatuses(p, w);
    case Execute(w, ok) => ExecuteStatuses(p, w, ok);
    case _ => SameStatuses(p, s);
  }

  lemma ArrivalsKept(p: Pool, s: Step)
    requires Inv(p) && Enabled(p, s)
    ensures var p' := Next(p, s);
            p'.accepted == p'.taken + p'.channel && |p'.channel| <= CHANNEL_CAPACITY && NoRepeats(p'.accepted)
  {
    hide Placed, StatusesMatch, StatusOfAccepted, ExecutionsMatch, EndedMatch;
  }

  lemma KeysKept(p: Pool, s: Step)
    requires Inv(p) && Enabled(p, s)
    ensures StatusOfAccepted(Next(p, s))
  {
    hide StatusesMatch, ExecutionsMatch, EndedMatch, NoRepeats;
    if s.Receive? {
      assert p.channel[0] in p.channel;
    }
  }

  lemma ExecutionsKept(p: Pool, s: Step)
    requires Inv(p) && Enabled(p, s)
    ensures ExecutionsMatch(Next(p, s))
  {
    hide StatusesMatch, StatusOfAccepted, EndedMatch;
  }

  lemma EndedKept(p: Pool, s: Step)
    requires Inv(p) && Enabled(p, s)
    ensures EndedMatch(Next(p, s))
  {
    hide StatusesMatch, StatusOfAccepted, NoRepeats;
    if s.Execute? {
      assert p.workers[s.w].job in p.running;
    }
    hide Placed;
  }

  lemma StepKeeps(p: Pool, s: Step)
    requires Inv(p) && Enabled(p, s)
    ensures Inv(Next(p, s)) && |Next(p, s).workers| == |p.workers|
    ensures p.accepted <= Next(p, s).accepted && p.taken <= Next(p, s).taken
    ensures p.completed <= Next(p, s).completed && p.executions <= Next(p, s).executions
  {
    PlacesKept(p, s);
    StatusesKept(p, s);
    ArrivalsKept(p, s);
    KeysKept(p, s);
    ExecutionsKept(p, s);
    EndedKept(p, s);
    hide Placed, StatusesMatch, StatusOfAccepted, ExecutionsMatch, EndedMatch, NoRepeats;
  }

  /** The invariant holds after every interleaving; accepted, taken, completed and executions only grow. */
  lemma {:induction false} RunKeeps(p: Pool, steps: seq<Step>)
    requires Inv(p) && CanRun(p, steps)
    ensures var p' := Run(p, steps);
            && Inv(p') && |p'.workers| == |p.workers|
            && p.accepted <= p'.accepted && p.taken <= p'.taken
            && p.completed <= p'.completed && p.executions <= p'.executions
    decreases |steps|
  {
    if steps != [] {
      StepKeeps(p, steps[0]);
      RunKeeps(Next(p, steps[0]), steps[1..]);
    }
  }

  // ---------------------------------------------------------------- what it means

  function Places(p: Pool, j: JobId): nat {
    (if j in p.channel then 1 else 0) + (if j in InHands(p) then 1 else 0)
    + (if j in p.running then 1 else 0) + (if j in p.completed then 1 else 0)
  }

  lemma OnePlace(p: Pool, j: JobId)
    requires Inv(p)
    ensures j in p.accepted <==> Places(p, j) == 1
    ensures j !in p.accepted <==> Places(p, j) == 0
  {
    SplitApart(p.taken, p.channel);
    if j in InHands(p) {
      var w :| 0 <= w < |p.workers| && p.workers[w].Received? && p.workers[w].job == j;
      assert HoldsInHand(p, w, j);
    }
    assert forall w | HoldsInHand(p, w, j) :: j in InHands(p);
  }

  lemma {:induction false} AtMostOneJobEach(workers: seq<Phase>, jobs: set<JobId>)
    requires forall j | j in jobs :: exists w :: 0 <= w < |workers| && InExecution(workers[w]) && workers[w].job == j
    ensures |jobs| <= |workers|
    decreases |workers|
  {
    if workers == [] {
      assert jobs == {};
    } else {
      var n := |workers| - 1;
      var rest := if InExecution(workers[n]) then jobs - {workers[n].job} else jobs;
      forall j | j in rest ensures exists w :: 0 <= w < n && InExecution(workers[..n][w]) && workers[..n][w].job == j {
        var w :| 0 <= w < |workers| && InExecution(workers[w]) && workers[w].job == j;
        assert workers[..n][w] == workers[w];
      }
      AtMostOneJobEach(workers[..n], rest);
    }
  }

  lemma RunningBound(p: Pool)
    requires Inv(p)
    ensures |p.running| <= |p.workers|
  {
    forall k | k in p.running
      ensures exists w :: 0 <= w < |p.workers| && InExecution(p.workers[w]) && p.workers[w].job == k
    {
      var w :| Runs(p, w, k);
    }
    AtMostOneJobEach(p.workers, p.running);
  }

  lemma RunningStatus(p: Pool, j: JobId)
    requires Inv(p) && j in p.running
    ensures (Has(p, j, Running) || IsTerminal(p, j)) && j !in p.completed
  {
    var w :| Runs(p, w, j);
  }

  /** Safety over all interleavings of submitters and workers. */
  lemma Safety(maxConcurrent: nat, steps: seq<Step>, j: JobId)
    requires CanRun(Started(maxConcurrent), steps)
    ensures var p := Run(Started(maxConcurrent), steps);
            && (j in p.accepted <==> Places(p, j) == 1)
            && NoRepeats(p.executions)
            && (j in p.executions <==> j in p.running || j in p.completed)
            && |p.running| <= maxConcurrent
            && GetAvailableCapacity(p) == maxConcurrent - |p.running|
            && p.taken <= p.accepted && p.accepted == p.taken + p.channel
            && (j in p.completed ==> IsTerminal(p, j))
            && (j in p.running ==> Has(p, j, Running) || IsTerminal(p, j))
  {
    StartedInv(maxConcurrent);
    RunKeeps(Started(maxConcurrent), steps);
    var p := Run(Started(maxConcurrent), steps);
    OnePlace(p, j);
    RunningBound(p);
    if j in p.running {
      RunningStatus(p, j);
    }
  }

  /** Once Stop has returned nothing is running, and every accepted job is either untouched in
      the channel or finished; whatever happens afterwards, that stays so. */
  lemma AfterStop(maxConcurrent: nat, steps: seq<Step>, later: seq<Step>, j: JobId)
    requires CanRun(Started(maxConcurrent), steps) && StopReturned(Run(Started(maxConcurrent), steps))
    requires CanRun(Run(Started(maxConcurrent), steps), later)
    ensures var p := Run(Started(maxConcurrent), steps);
            var p' := Run(p, later);
            && StopReturned(p') && p'.running == {} && p'.completed == p.completed && p'.taken == p.taken
            && (j in p'.accepted ==>
                  (j in p'.channel && Has(p', j, Pending) && j !in p'.completed && j !in p'.executions)
                  || (j !in p'.channel && j in p'.completed && IsTerminal(p', j)))
  {
    StartedInv(maxConcurrent);
    RunKeeps(Started(maxConcurrent), steps);
    var p := Run(Started(maxConcurrent), steps);
    RunKeeps(p, later);
    NothingMoves(p, later);
    var p' := Run(p, later);
    assert forall w, k :: !Runs(p', w, k);
    OnePlace(p', j);
  }

  lemma {:induction false} NothingMoves(p: Pool, later: seq<Step>)
    requires StopReturned(p) && CanRun(p, later)
    ensures StopReturned(Run(p, later))
    ensures Run(p, later).completed == p.completed && Run(p, later).taken == p.taken
    decreases |later|
  {
    if later != [] {
      NothingMoves(Next(p, later[0]), later[1..]);
    }
  }

  // ---------------------------------------------------------------- outcomes

  /** Along the run some worker ended the execution of `j` this way. */
  ghost predicate EndedWith(p: Pool, steps: seq<Step>, j: JobId, ok: bool)
    requires CanRun(p, steps)
    decreases |steps|
  {
    steps != [] &&
    var s := steps[0];
    (s.Execute? && s.ok == ok && p.workers[s.w] == Executing(j)) || EndedWith(Next(p, s), steps[1..], j, ok)
  }

  lemma StepEnds(p: Pool, s: Step, j: JobId)
    requires Inv(p) && Enabled(p, s)
    ensures Has(Next(p, s), j, Completed) <==>
            Has(p, j, Completed) || (s.Execute? && s.ok && p.workers[s.w] == Executing(j))
    ensures Has(Next(p, s), j, Failed) <==>
            Has(p, j, Failed) || (s.Execute? && !s.ok && p.workers[s.w] == Executing(j))
  {
    hide Placed, NoRepeats;
    if s.Receive? {
      assert p.channel[0] in p.channel;
    }
  }

  lemma {:induction false} OutcomeFrom(p: Pool, steps: seq<Step>, j: JobId)
    requires Inv(p) && CanRun(p, steps)
    ensures Has(Run(p, steps), j, Completed) <==> Has(p, j, Completed) || EndedWith(p, steps, j, true)
    ensures Has(Run(p, steps), j, Failed) <==> Has(p, j, Failed) || EndedWith(p, steps, j, false)
    decreases |steps|
  {
    hide Inv, Has;
    if steps != [] {
      StepKeeps(p, steps[0]);
      StepEnds(p, steps[0], j);
      OutcomeFrom(Next(p, steps[0]), steps[1..], j);
    }
  }

  /** Over all interleavings a job's status is completed exactly when its execution succeeded, and failed
      exactly when its execution failed; no job does both. */
  lemma OutcomeIff(maxConcurrent: nat, steps: seq<Step>, j: JobId)
    requires CanRun(Started(maxConcurrent), steps)
    ensures var p := Run(Started(maxConcurrent), steps);
            && (Has(p, j, Completed) <==> EndedWith(Started(maxConcurrent), steps, j, true))
            && (Has(p, j, Failed) <==> EndedWith(Started(maxConcurrent), steps, j, false))
    ensures !(EndedWith(Started(maxConcurrent), steps, j, true) && EndedWith(Started(maxConcurrent), steps, j, false))
  {
    StartedInv(maxConcurrent);
    OutcomeFrom(Started(maxConcurrent), steps, j);
  }

  /** No worker leaves before Stop is called. */
  lemma {:induction false} NobodyLeavesEarly(p: Pool, steps: seq<Step>)
    requires CanRun(p, steps) && (p.stopped || forall w | 0 <= w < |p.workers| :: !p.workers[w].Exited?)
    ensures var p' := Run(p, steps); p'.stopped || forall w | 0 <= w < |p'.workers| :: !p'.workers[w].Exited?
    ensures p.stopped ==> Run(p, steps).stopped
    decreases |steps|
  {
    if steps != [] {
      NobodyLeavesEarly(Next(p, steps[0]), steps[1..]);
    }
  }

  /** Until Stop is called, a queued job means that some worker can move. */
  lemma QueuedIsNotStuck(maxConcurrent: nat, steps: seq<Step>) returns (s: Step)
    requires maxConcurrent > 0 && CanRun(Started(maxConcurrent), steps)
    requires var p := Run(Started(maxConcurrent), steps); !p.stopped && p.channel != []
    ensures WorkerStep(s) && !s.Exit? && Enabled(Run(Started(maxConcurrent), steps), s)
  {
    StartedInv(maxConcurrent);
    RunKeeps(Started(maxConcurrent), steps);
    NobodyLeavesEarly(Started(maxConcurrent), steps);
    hide Inv;
    var p := Run(Started(maxConcurrent), steps);
    s := match p.workers[0]
         case Waiting => Receive(0)
         case Received(_) => Register(0)
         case Executing(_) => Execute(0, true)
         case Executed(_) => Finish(0);
  }

  // ---------------------------------------------------------------- Stop returns

  function Due(f: Phase): nat {
    match f
    case Exited => 0
    case Waiting => 1
    case Executed(_) => 2
    case Executing(_) => 3
    case Received(_) => 4
  }

  function TotalDue(workers: seq<Phase>): nat {
    if workers == [] then 0 else TotalDue(workers[..|workers| - 1]) + Due(workers[|workers| - 1])
  }

  function WorkLeft(p: Pool): nat {
    4 * |p.channel| + TotalDue(p.workers)
  }

  lemma {:induction false} TotalDueUpdate(workers: seq<Phase>, w: nat, f: Phase)
    requires w < |workers|
    ensures TotalDue(workers[w := f]) == TotalDue(workers) - Due(workers[w]) + Due(f)
    decreases |workers|
  {
    var n := |workers| - 1;
    if w == n {
      assert workers[w := f][..n] == workers[..n];
    } else {
      TotalDueUpdate(workers[..n], w, f);
      assert workers[w := f][..n] == workers[..n][w := f];
    }
  }

  predicate WorkerStep(s: Step) {
    !s.Submit? && !s.Stop?
  }

  lemma WorkShrinks(p: Pool, s: Step)
    requires Enabled(p, s)
    ensures WorkLeft(Next(p, s)) == WorkLeft(p) - (if WorkerStep(s) then 1 else 0)
                                    + 4 * (|Next(p, s).accepted| - |p.accepted|)
  {
    match s
    case Submit(_) =>
    case Stop =>
    case Receive(w) => TotalDueUpdate(p.workers, w, Received(p.channel[0]));
    case Register(w) => TotalDueUpdate(p.workers, w, Executing(p.workers[w].job));
    case Execute(w, ok) => TotalDueUpdate(p.workers, w, Executed(p.workers[w].job));
    case Finish(w) => TotalDueUpdate(p.workers, w, Waiting);
    case Exit(w) => TotalDueUpdate(p.workers, w, Exited);
  }

  function WorkerSteps(steps: seq<Step>): nat {
    if steps == [] then 0 else (if WorkerStep(steps[0]) then 1 else 0) + WorkerSteps(steps[1..])
  }

  /** The workers take exactly the steps their jobs need: four per accepted job plus one to
      leave, so they never spin. */
  lemma {:induction false} WorkIsBounded(p: Pool, steps: seq<Step>)
    requires CanRun(p, steps)
    ensures WorkerSteps(steps) + WorkLeft(Run(p, steps))
            == WorkLeft(p) + 4 * (|Run(p, steps).accepted| - |p.accepted|)
    decreases |steps|
  {
    if steps != [] {
      WorkShrinks(p, steps[0]);
      WorkIsBounded(Next(p, steps[0]), steps[1..]);
    }
  }

  /** Between the call of Stop and its return some worker can always move. */
  lemma StopIsNotStuck(p: Pool) returns (s: Step)
    requires p.stopped && !StopReturned(p)
    ensures WorkerStep(s) && Enabled(p, s)
  {
    var w :| 0 <= w < |p.workers| && !p.workers[w].Exited?;
    s := match p.workers[w]
         case Waiting => Exit(w)
         case Received(_) => Register(w)
         case Executing(_) => Execute(w, true)
         case Executed(_) => Finish(w);
  }
}
