/** Refinement, conservation and bounded wait of the deadline-aware priority queue. */
module JobOrderProofs {
  import opened Common
  import opened JobOrder

  // ---------------------------------------------------------------- refinement

  lemma RemovalRefines(t: TierState, l: ListState, p: nat, k: nat) returns (i: nat)
    requires Refines(t, l) && p < TIERS && k < |t.tiers[p]|
    ensures i < |l.queue| && l.queue[i] == t.tiers[p][k] && l.queue[i].priority == p
    ensures TierOf(l.queue[..i], p) == t.tiers[p][..k]
    ensures Refines(t.(tiers := t.tiers[p := RemoveAt(t.tiers[p], k)]), l.(queue := RemoveAt(l.queue, i)))
  {
    hide Filter;
    i := Locate(l.queue, HasPriority(p), k);
    forall p2 | 0 <= p2 < TIERS && p2 != p
      ensures TierOf(RemoveAt(l.queue, i), p2) == TierOf(l.queue, p2)
    {
      FilterSplit(l.queue, i, HasPriority(p2));
      FilterRemoved(l.queue, i, HasPriority(p2));
    }
  }

  lemma Earlier(s: seq<Job>, i: nat, k: nat, p: int)
    requires k < i < |s| && s[k].priority == p
    ensures s[k] in TierOf(s[..i], p)
  {
    InFilter(s[..i], k, HasPriority(p));
  }

  lemma WithoutIdAt(s: seq<Job>, k: nat)
    requires DistinctIds(s) && k < |s|
    ensures IndexOfId(s, s[k].id) == k
    ensures WithoutId(s, s[k].id) == RemoveAt(s, k)
  {
  }

  lemma ListServes(l: ListState, now: int, i: nat)
    requires NextUp(l.queue, now, i)
    ensures ListNext(l, Dequeue(now), Dequeued(Some(l.queue[i])), l.(queue := RemoveAt(l.queue, i)))
  {
  }

  lemma TierServes(t: TierState, now: int)
    ensures TierStep(t, Dequeue(now)).1 == Dequeued(Take(t.tiers, now).1)
    ensures TierStep(t, Dequeue(now)).0.tiers == Take(t.tiers, now).0
    ensures TierStep(t, Dequeue(now)).0.closed == t.closed
  {
  }

  /** The scan-and-remove of the code serves the job that goes before all others. */
  lemma DequeueRefines(t: TierState, l: ListState, now: int) returns (l': ListState)
    requires Refines(t, l) && DistinctWithinTiers(t.tiers)
    ensures ListNext(l, Dequeue(now), TierStep(t, Dequeue(now)).1, l')
    ensures Refines(TierStep(t, Dequeue(now)).0, l')
  {
    TierServes(t, now);
    var u := UrgentTier(t.tiers, now, 0);
    var p := if u < TIERS then u else FrontTier(t.tiers, 0);
    if p < TIERS {
      var k := if u < TIERS then FirstUrgent(t.tiers[u], now) else 0;
      TakeIsRemoval(t.tiers, now, p, k);
      var i := RemovalRefines(t, l, p, k);
      ServedIsNext(t, l, now, p, k, i);
      ListServes(l, now, i);
      l' := l.(queue := RemoveAt(l.queue, i));
    } else {
      NothingQueued(t, l);
      l' := l;
    }
  }

  ghost predicate Serves(q: Tiers, now: int, p: nat, k: nat) {
    && p < TIERS && k < |q[p]|
    && var u := UrgentTier(q, now, 0);
       if u < TIERS then p == u && k == FirstUrgent(q[u], now) else p == FrontTier(q, 0) && k == 0
  }

  lemma TakeIsRemoval(q: Tiers, now: int, p: nat, k: nat)
    requires DistinctWithinTiers(q) && Serves(q, now, p, k)
    ensures Take(q, now) == (q[p := RemoveAt(q[p], k)], Some(q[p][k]))
  {
    if UrgentTier(q, now, 0) < TIERS {
      WithoutIdAt(q[p], k);
    } else {
      assert q[p][1..] == RemoveAt(q[p], 0);
    }
  }

  lemma NothingQueued(t: TierState, l: ListState)
    requires Refines(t, l) && FrontTier(t.tiers, 0) == TIERS
    ensures l.queue == []
  {
  }

  lemma ServedIsNext(t: TierState, l: ListState, now: int, p: nat, k: nat, i: nat)
    requires Refines(t, l) && p < TIERS && k < |t.tiers[p]| && i < |l.queue|
    requires l.queue[i] == t.tiers[p][k] && l.queue[i].priority == p && TierOf(l.queue[..i], p) == t.tiers[p][..k]
    requires Serves(t.tiers, now, p, k)
    ensures NextUp(l.queue, now, i)
  {
    var s := l.queue;
    forall m: nat | m < |s| && m != i ensures Before(s, now, i, m) {
      assert s[m] in s;
      var pm := s[m].priority;
      InFilter(s, m, HasPriority(pm));
      assert s[m] in t.tiers[pm];
      if pm == p && m < i {
        Earlier(s, i, m, p);
        assert s[m] in t.tiers[p][..k];
      }
    }
  }

  lemma CancelRefines(t: TierState, l: ListState, id: string) returns (l': ListState)
    requires Refines(t, l)
    ensures ListNext(l, Cancel(id), TierStep(t, Cancel(id)).1, l')
    ensures Refines(TierStep(t, Cancel(id)).0, l')
  {
    hide Filter;
    var p := TierOfId(t.tiers, id, 0);
    if p == TIERS {
      NothingMatches(t, l, id);
      l' := l;
    } else {
      var k := IndexOfId(t.tiers[p], id);
      var i := RemovalRefines(t, l, p, k);
      CancelledIsFirst(t, l, id, p, i);
      ListDrops(l, id, i);
      l' := l.(queue := RemoveAt(l.queue, i));
    }
  }

  lemma NothingMatches(t: TierState, l: ListState, id: string)
    requires Refines(t, l) && TierOfId(t.tiers, id, 0) == TIERS
    ensures forall j | j in l.queue :: j.id != id
  {
    hide Filter, TierOfId, IndexOfId;
    forall m | 0 <= m < |l.queue| ensures l.queue[m].id != id {
      var p := l.queue[m].priority;
      assert l.queue[m] in l.queue;
      InFilter(l.queue, m, HasPriority(p));
      assert IndexOfId(t.tiers[p], id) == |t.tiers[p]| && l.queue[m] in t.tiers[p];
    }
  }

  lemma CancelledIsFirst(t: TierState, l: ListState, id: string, p: nat, i: nat)
    requires Refines(t, l) && p < TIERS && TierOfId(t.tiers, id, 0) == p && i < |l.queue|
    requires l.queue[i].id == id && l.queue[i].priority == p
    requires TierOf(l.queue[..i], p) == t.tiers[p][..IndexOfId(t.tiers[p], id)]
    ensures FirstMatch(l.queue, id, i)
  {
    hide Filter, TierOfId, IndexOfId;
    var s := l.queue;
    forall m: nat | m < |s| && m != i && s[m].id == id
      ensures p < s[m].priority || (p == s[m].priority && i < m)
    {
      assert s[m] in s;
      InFilter(s, m, HasPriority(s[m].priority));
      assert s[m] in t.tiers[s[m].priority];
      if s[m].priority == p && m < i {
        Earlier(s, i, m, p);
      }
    }
  }

  lemma ListDrops(l: ListState, id: string, i: nat)
    requires FirstMatch(l.queue, id, i)
    ensures ListNext(l, Cancel(id), Cancelled(Some(l.queue[i])), l.(queue := RemoveAt(l.queue, i)))
  {
    assert l.queue[i] in l.queue;
  }

  lemma EnqueueRefines(t: TierState, l: ListState, job: Job) returns (l': ListState)
    requires Refines(t, l)
    ensures ListNext(l, Enqueue(job), TierStep(t, Enqueue(job)).1, l')
    ensures Refines(TierStep(t, Enqueue(job)).0, l')
  {
    l' := if l.closed then l else l.(queue := l.queue + [Filed(job)]);
    assert TakenInAs(job, Filed(job));
    assert (l.queue + [Filed(job)])[..|l.queue|] == l.queue;
  }

  lemma StepRefines(t: TierState, l: ListState, e: Event) returns (l': ListState)
    requires Refines(t, l) && DistinctWithinTiers(t.tiers)
    ensures ListNext(l, e, TierStep(t, e).1, l')
    ensures Refines(TierStep(t, e).0, l')
  {
    match e
    case Enqueue(job) => l' := EnqueueRefines(t, l, job);
    case Dequeue(now) => l' := DequeueRefines(t, l, now);
    case Cancel(id) => l' := CancelRefines(t, l, id);
    case Close => l' := l.(closed := true);
  }

  lemma RemovalKeepsDistinct(s: seq<Job>, i: nat)
    requires DistinctIds(s) && i < |s|
    ensures DistinctIds(RemoveAt(s, i))
  {
    var r := RemoveAt(s, i);
    forall a, b | 0 <= a < b < |r| ensures r[a].id != r[b].id {
      assert r[a] == s[if a < i then a else a + 1] && r[b] == s[if b < i then b else b + 1];
    }
  }

  lemma TierRemovalKeepsDistinct(q: Tiers, p: nat, i: nat)
    requires DistinctWithinTiers(q) && p < TIERS && i < |q[p]|
    ensures DistinctWithinTiers(q[p := RemoveAt(q[p], i)])
  {
    RemovalKeepsDistinct(q[p], i);
  }

  lemma ArrivalKeepsDistinct(q: Tiers, f: Job)
    requires DistinctWithinTiers(q) && 0 <= f.priority < TIERS && NewInTier(q, f)
    ensures DistinctWithinTiers(q[f.priority := q[f.priority] + [f]])
  {
  }

  lemma StepKeepsDistinct(t: TierState, e: Event)
    requires DistinctWithinTiers(t.tiers)
    requires e.Enqueue? ==> NewInTier(t.tiers, Filed(e.job))
    ensures DistinctWithinTiers(TierStep(t, e).0.tiers)
  {
    match e
    case Enqueue(job) => ArrivalKeepsDistinct(t.tiers, Filed(job));
    case Dequeue(now) =>
      TierServes(t, now);
      var u := UrgentTier(t.tiers, now, 0);
      var p := if u < TIERS then u else FrontTier(t.tiers, 0);
      if p < TIERS {
        var k := if u < TIERS then FirstUrgent(t.tiers[u], now) else 0;
        TakeIsRemoval(t.tiers, now, p, k);
        TierRemovalKeepsDistinct(t.tiers, p, k);
      }
    case Cancel(id) =>
      var p := TierOfId(t.tiers, id, 0);
      if p < TIERS {
        TierRemovalKeepsDistinct(t.tiers, p, IndexOfId(t.tiers[p], id));
      }
    case Close =>
  }

  /** Every run of the four tiers is a run of the arrival list, with the same replies. */
  lemma {:induction false} RunRefines(t: TierState, l: ListState, evs: seq<Event>) returns (ls: seq<ListState>)
    requires Refines(t, l) && DistinctWithinTiers(t.tiers) && NoClash(t, evs)
    ensures |ls| == |evs| + 1 && |TierRun(t, evs).1| == |evs| && ls[0] == l
    ensures forall n | 0 <= n < |evs| :: ListNext(ls[n], evs[n], TierRun(t, evs).1[n], ls[n + 1])
    ensures Refines(TierRun(t, evs).0, ls[|evs|]) && DistinctWithinTiers(TierRun(t, evs).0.tiers)
    decreases |evs|
  {
    hide ListNext, Refines, TierStep, DistinctWithinTiers, NewInTier;
    if evs == [] {
      ls := [l];
    } else {
      var t' := TierStep(t, evs[0]).0;
      var l' := StepRefines(t, l, evs[0]);
      StepKeepsDistinct(t, evs[0]);
      var rest := RunRefines(t', l', evs[1..]);
      ls := [l] + rest;
      forall n | 0 <= n < |evs| ensures ListNext(ls[n], evs[n], TierRun(t, evs).1[n], ls[n + 1]) {
        if n > 0 {
          assert ListNext(rest[n - 1], evs[1..][n - 1], TierRun(t', evs[1..]).1[n - 1], rest[n]);
        }
      }
    }
  }

  lemma NextUpExcludes(s: seq<Job>, now: int, i: nat, k: nat)
    requires NextUp(s, now, i) && k < |s| && k != i
    ensures !NextUp(s, now, k)
  {
    assert Before(s, now, i, k) && !Before(s, now, k, i);
  }

  lemma FirstMatchUnique(s: seq<Job>, id: string, i: nat, k: nat)
    requires FirstMatch(s, id, i) && FirstMatch(s, id, k)
    ensures i == k
  {
  }

  /** The arrival list leaves no choice: reply and next state are determined. */
  lemma ListNextUnique(l: ListState, e: Event, r1: Reply, l1: ListState, r2: Reply, l2: ListState)
    requires ListNext(l, e, r1, l1) && ListNext(l, e, r2, l2)
    ensures r1 == r2 && l1 == l2
  {
    var s := l.queue;
    match e
    case Enqueue(job) =>
      assert forall f, g | TakenInAs(job, f) && TakenInAs(job, g) :: f == g;
    case Close =>
    case Dequeue(now) =>
      if s != [] {
        var i: nat :| NextUp(s, now, i) && r1 == Dequeued(Some(s[i])) && l1 == l.(queue := RemoveAt(s, i));
        var k: nat :| NextUp(s, now, k) && r2 == Dequeued(Some(s[k])) && l2 == l.(queue := RemoveAt(s, k));
        if i != k { NextUpExcludes(s, now, i, k); }
      }
    case Cancel(id) =>
      if exists j :: j in s && j.id == id {
        var i: nat :| FirstMatch(s, id, i) && r1 == Cancelled(Some(s[i])) && l1 == l.(queue := RemoveAt(s, i));
        var k: nat :| FirstMatch(s, id, k) && r2 == Cancelled(Some(s[k])) && l2 == l.(queue := RemoveAt(s, k));
        FirstMatchUnique(s, id, i, k);
      }
  }

  lemma EmptyRefines()
    ensures Refines(EMPTY, ListState([], false)) && DistinctWithinTiers(EMPTY.tiers)
  {
  }

  // ---------------------------------------------------------------- conservation

  function Queued(q: Tiers): multiset<Job> {
    multiset(q[0]) + multiset(q[1]) + multiset(q[2]) + multiset(q[3])
  }

  function TakenIn(e: Event, r: Reply): seq<Job> {
    if e.Enqueue? && r == Enqueued(true) then [Filed(e.job)] else []
  }

  function HandedOut(r: Reply): seq<Job> {
    if r.Dequeued? && r.job.Some? then [r.job.value] else []
  }

  function CalledOff(r: Reply): seq<Job> {
    if r.Cancelled? && r.job.Some? then [r.job.value] else []
  }

  /** The jobs a run took in, as filed. */
  function Accepted(evs: seq<Event>, rs: seq<Reply>): seq<Job>
    requires |evs| == |rs|
  {
    if evs == [] then [] else TakenIn(evs[0], rs[0]) + Accepted(evs[1..], rs[1..])
  }

  function Served(rs: seq<Reply>): seq<Job> {
    if rs == [] then [] else HandedOut(rs[0]) + Served(rs[1..])
  }

  function Dropped(rs: seq<Reply>): seq<Job> {
    if rs == [] then [] else CalledOff(rs[0]) + Dropped(rs[1..])
  }

  lemma RunLength(t: TierState, evs: seq<Event>)
    ensures |TierRun(t, evs).1| == |evs|
    decreases |evs|
  {
  }

  lemma RemovedFromTier(q: Tiers, p: nat, i: nat)
    requires p < TIERS && i < |q[p]|
    ensures Queued(q) == Queued(q[p := RemoveAt(q[p], i)]) + multiset{q[p][i]}
  {
    RemoveAtMultiset(q[p], i);
  }

  /** Were an urgent job taken out now, the first job of its tier with its ID would be that job. */
  predicate TakesItsOwn(q: Tiers, now: int) {
    var u := UrgentTier(q, now, 0);
    u < TIERS ==>
      var j := q[u][FirstUrgent(q[u], now)];
      IndexOfId(q[u], j.id) < |q[u]| && q[u][IndexOfId(q[u], j.id)] == j
  }

  lemma FoundById(s: seq<Job>, k: nat)
    requires k < |s|
    ensures IndexOfId(s, s[k].id) < |s|
  {
  }

  /** Removal is by ID: with an ID repeated inside a tier a scan may return one job and remove
      another. It keeps the books exactly when the first holder of the ID is the urgent job. */
  lemma UrgentConservesIff(q: Tiers, now: int)
    requires UrgentTier(q, now, 0) < TIERS
    ensures var u := UrgentTier(q, now, 0);
            var j := q[u][FirstUrgent(q[u], now)];
            var (q', job) := Take(q, now);
            job == Some(j) && (Queued(q) == Queued(q') + multiset{j} <==> TakesItsOwn(q, now))
  {
    var u := UrgentTier(q, now, 0);
    var k := FirstUrgent(q[u], now);
    var j := q[u][k];
    FoundById(q[u], k);
    var i := IndexOfId(q[u], j.id);
    RemovedFromTier(q, u, i);
    SameMultiset(Queued(q[u := RemoveAt(q[u], i)]), q[u][i], j);
  }

  lemma SameMultiset(m: multiset<Job>, a: Job, b: Job)
    ensures m + multiset{a} == m + multiset{b} <==> a == b
  {
    if a != b {
      assert (m + multiset{a})[a] != (m + multiset{b})[a];
    }
  }

  lemma FrontConserves(q: Tiers)
    ensures var (q', job) := TakeFront(q);
            Queued(q) == Queued(q') + if job.Some? then multiset{job.value} else multiset{}
  {
    var p := FrontTier(q, 0);
    if p < TIERS {
      assert q[p][1..] == RemoveAt(q[p], 0);
      RemovedFromTier(q, p, 0);
    }
  }

  lemma DequeueConservesIff(q: Tiers, now: int)
    ensures var (q', job) := Take(q, now);
            Queued(q) == Queued(q') + (if job.Some? then multiset{job.value} else multiset{}) <==> TakesItsOwn(q, now)
  {
    if UrgentTier(q, now, 0) < TIERS {
      UrgentConservesIff(q, now);
    } else {
      FrontConserves(q);
    }
  }

  lemma CancelConserves(q: Tiers, id: string)
    ensures var (q', job) := Drop(q, id);
            Queued(q) == Queued(q') + if job.Some? then multiset{job.value} else multiset{}
  {
    var p := TierOfId(q, id, 0);
    if p < TIERS {
      RemovedFromTier(q, p, IndexOfId(q[p], id));
    }
  }

  lemma EnqueueConserves(q: Tiers, f: Job)
    requires 0 <= f.priority < TIERS
    ensures Queued(q[f.priority := q[f.priority] + [f]]) == Queued(q) + multiset{f}
  {
  }

  lemma EnqueueStepConserves(t: TierState, job: Job)
    ensures var (t', r) := TierStep(t, Enqueue(job));
            Queued(t.tiers) + multiset(TakenIn(Enqueue(job), r)) == Queued(t'.tiers)
  {
    EnqueueConserves(t.tiers, Filed(job));
  }

  lemma DequeueStepConservesIff(t: TierState, now: int)
    ensures var (t', r) := TierStep(t, Dequeue(now));
            Queued(t.tiers) == Queued(t'.tiers) + multiset(HandedOut(r)) <==> TakesItsOwn(t.tiers, now)
  {
    TierServes(t, now);
    DequeueConservesIff(t.tiers, now);
  }

  lemma CancelStepConserves(t: TierState, id: string)
    ensures var (t', r) := TierStep(t, Cancel(id));
            Queued(t.tiers) == Queued(t'.tiers) + multiset(CalledOff(r))
  {
    CancelConserves(t.tiers, id);
  }

  ghost predicate Conserves(t: TierState, e: Event, t': TierState, r: Reply) {
    Queued(t.tiers) + multiset(TakenIn(e, r)) == Queued(t'.tiers) + multiset(HandedOut(r)) + multiset(CalledOff(r))
  }

  predicate OwnRemoval(q: Tiers, e: Event) {
    e.Dequeue? ==> TakesItsOwn(q, e.now)
  }

  lemma NothingElse(q: multiset<Job>, q': multiset<Job>, out: multiset<Job>)
    ensures q + multiset([]) == q' + out + multiset([]) <==> q == q' + out
  {
    assert q + multiset([]) == q && q' + out + multiset([]) == q' + out;
  }

  lemma DequeueConservesAllIff(t: TierState, now: int)
    ensures Conserves(t, Dequeue(now), TierStep(t, Dequeue(now)).0, TierStep(t, Dequeue(now)).1)
            <==> TakesItsOwn(t.tiers, now)
  {
    DequeueStepConservesIff(t, now);
    var (t', r) := TierStep(t, Dequeue(now));
    assert TakenIn(Dequeue(now), r) == [] && CalledOff(r) == [];
    hide TierStep, Queued, TakesItsOwn, HandedOut;
    NothingElse(Queued(t.tiers), Queued(t'.tiers), multiset(HandedOut(r)));
  }

  lemma StepConservesIff(t: TierState, e: Event)
    ensures Conserves(t, e, TierStep(t, e).0, TierStep(t, e).1) <==> OwnRemoval(t.tiers, e)
  {
    match e
    case Enqueue(job) => EnqueueStepConserves(t, job);
    case Dequeue(now) =>
      hide TakesItsOwn, Conserves;
      DequeueConservesAllIff(t, now);
    case Cancel(id) => CancelStepConserves(t, id);
    case Close =>
  }

  lemma StepCounts(t: TierState, e: Event)
    ensures var (t', r) := TierStep(t, e);
            t'.enqueued == t.enqueued + |TakenIn(e, r)| && t'.dequeued == t.dequeued + |HandedOut(r)|
  {
  }

  lemma Balance(q0: multiset<Job>, q1: multiset<Job>, q2: multiset<Job>, in1: multiset<Job>, in2: multiset<Job>,
                out1: multiset<Job>, out2: multiset<Job>, off1: multiset<Job>, off2: multiset<Job>)
    requires q0 + in1 == q1 + out1 + off1 && q1 + in2 == q2 + out2 + off2
    ensures q0 + (in1 + in2) == q2 + (out1 + out2) + (off1 + off2)
  {
    forall x: Job ensures (q0 + (in1 + in2))[x] == (q2 + (out1 + out2) + (off1 + off2))[x] {
      assert (q0 + in1)[x] == (q1 + out1 + off1)[x] && (q1 + in2)[x] == (q2 + out2 + off2)[x];
    }
  }

  lemma Rebalance(q0: multiset<Job>, q1: multiset<Job>, q2: multiset<Job>, in1: multiset<Job>, in2: multiset<Job>,
                  out1: multiset<Job>, out2: multiset<Job>, off1: multiset<Job>, off2: multiset<Job>)
    requires q0 + in1 == q1 + out1 + off1 && q0 + (in1 + in2) == q2 + (out1 + out2) + (off1 + off2)
    ensures q1 + in2 == q2 + out2 + off2
  {
    forall x: Job ensures (q1 + in2)[x] == (q2 + out2 + off2)[x] {
      assert (q0 + in1)[x] == (q1 + out1 + off1)[x];
      assert (q0 + (in1 + in2))[x] == (q2 + (out1 + out2) + (off1 + off2))[x];
    }
  }

  /** What a run took in is queued, served or cancelled at its end, each job as often as before. */
  ghost predicate BooksBalance(t: TierState, evs: seq<Event>) {
    var (t', rs) := TierRun(t, evs);
    && |rs| == |evs|
    && Queued(t.tiers) + multiset(Accepted(evs, rs))
       == Queued(t'.tiers) + multiset(Served(rs)) + multiset(Dropped(rs))
  }

  /** Every urgent job handed out was the first of its tier with its ID. */
  predicate OwnRemovals(t: TierState, evs: seq<Event>)
    decreases |evs|
  {
    evs != [] ==> OwnRemoval(t.tiers, evs[0]) && OwnRemovals(TierStep(t, evs[0]).0, evs[1..])
  }

  lemma BooksOfFirst(t: TierState, e: Event)
    ensures BooksBalance(t, [e]) <==> Conserves(t, e, TierStep(t, e).0, TierStep(t, e).1)
  {
    hide TierStep, Queued;
    var (t1, r) := TierStep(t, e);
    assert [e][1..] == [] && [r][1..] == [];
    assert TierRun(t1, []) == (t1, []) && [r] + [] == [r];
    assert TierRun(t, [e]) == (t1, [r]);
    assert TakenIn(e, r) + Accepted([], []) == TakenIn(e, r);
    assert HandedOut(r) + Served([]) == HandedOut(r);
    assert CalledOff(r) + Dropped([]) == CalledOff(r);
  }

  lemma BooksOfRest(t: TierState, evs: seq<Event>)
    requires evs != [] && Conserves(t, evs[0], TierStep(t, evs[0]).0, TierStep(t, evs[0]).1)
    ensures BooksBalance(t, evs) <==> BooksBalance(TierStep(t, evs[0]).0, evs[1..])
  {
    hide TierStep, Queued, TakenIn, HandedOut, CalledOff;
    var (t1, r) := TierStep(t, evs[0]);
    var (t2, rs) := TierRun(t1, evs[1..]);
    RunLength(t1, evs[1..]);
    assert ([r] + rs)[1..] == rs;
    var q0, q1, q2 := Queued(t.tiers), Queued(t1.tiers), Queued(t2.tiers);
    var in1, in2 := multiset(TakenIn(evs[0], r)), multiset(Accepted(evs[1..], rs));
    var out1, out2 := multiset(HandedOut(r)), multiset(Served(rs));
    var off1, off2 := multiset(CalledOff(r)), multiset(Dropped(rs));
    if BooksBalance(t1, evs[1..]) {
      Balance(q0, q1, q2, in1, in2, out1, out2, off1, off2);
    }
    if BooksBalance(t, evs) {
      Rebalance(q0, q1, q2, in1, in2, out1, out2, off1, off2);
    }
  }

  /** Over any run in which urgent removals are own removals nothing is lost or duplicated, whatever
      IDs were enqueued. */
  lemma {:induction false} Conservation(t: TierState, evs: seq<Event>)
    requires OwnRemovals(t, evs)
    ensures BooksBalance(t, evs)
    decreases |evs|
  {
    hide TierStep, Queued, OwnRemoval, Conserves;
    if evs == [] {
      NothingHappened(t);
    } else {
      StepConservesIff(t, evs[0]);
      Conservation(TierStep(t, evs[0]).0, evs[1..]);
      BooksOfRest(t, evs);
    }
  }

  lemma NothingHappened(t: TierState)
    ensures BooksBalance(t, [])
  {
  }

  /** The books balance all along a run exactly when every urgent removal is an own removal. */
  lemma {:induction false} ConservationIff(t: TierState, evs: seq<Event>)
    ensures (forall n | 0 <= n <= |evs| :: BooksBalance(t, evs[..n])) <==> OwnRemovals(t, evs)
    decreases |evs|
  {
    hide BooksBalance, TierStep, OwnRemoval, Conserves;
    if OwnRemovals(t, evs) {
      forall n | 0 <= n <= |evs| ensures BooksBalance(t, evs[..n]) {
        OwnRemovalsBefore(t, evs, n);
        Conservation(t, evs[..n]);
      }
    } else {
      if forall n | 0 <= n <= |evs| :: BooksBalance(t, evs[..n]) {
        BalancedThroughout(t, evs);
      }
    }
  }

  lemma {:induction false} OwnRemovalsBefore(t: TierState, evs: seq<Event>, n: nat)
    requires n <= |evs| && OwnRemovals(t, evs)
    ensures OwnRemovals(t, evs[..n])
    decreases |evs|
  {
    hide TierStep, OwnRemoval;
    if n > 0 {
      OwnRemovalsBefore(TierStep(t, evs[0]).0, evs[1..], n - 1);
      assert evs[..n][1..] == evs[1..][..n - 1];
    }
  }

  lemma {:induction false} BalancedThroughout(t: TierState, evs: seq<Event>)
    requires forall n | 0 <= n <= |evs| :: BooksBalance(t, evs[..n])
    ensures OwnRemovals(t, evs)
    decreases |evs|
  {
    hide BooksBalance, TierStep, OwnRemoval, Conserves;
    if evs != [] {
      assert BooksBalance(t, evs[..1]) && evs[..1] == [evs[0]];
      BooksOfFirst(t, evs[0]);
      StepConservesIff(t, evs[0]);
      var rest := evs[1..];
      forall n | 0 <= n <= |rest| ensures BooksBalance(TierStep(t, evs[0]).0, rest[..n]) {
        assert BooksBalance(t, evs[..n + 1]);
        assert evs[..n + 1][1..] == rest[..n];
        BooksOfRest(t, evs[..n + 1]);
      }
      BalancedThroughout(TierStep(t, evs[0]).0, rest);
    }
  }

  /** The counters count on every run. */
  lemma {:induction false} CountersCount(t: TierState, evs: seq<Event>)
    ensures |TierRun(t, evs).1| == |evs|
    ensures var (t', rs) := TierRun(t, evs);
            t'.enqueued == t.enqueued + |Accepted(evs, rs)| && t'.dequeued == t.dequeued + |Served(rs)|
    decreases |evs|
  {
    hide TierStep, TakenIn, HandedOut;
    if evs != [] {
      var (t1, r) := TierStep(t, evs[0]);
      var rs := TierRun(t1, evs[1..]).1;
      StepCounts(t, evs[0]);
      CountersCount(t1, evs[1..]);
      assert ([r] + rs)[1..] == rs;
    }
  }

  /** In particular when no job is enqueued while its tier holds one with the same ID. */
  lemma {:induction false} DistinctIdsConserve(t: TierState, evs: seq<Event>)
    requires DistinctWithinTiers(t.tiers) && NoClash(t, evs)
    ensures OwnRemovals(t, evs) && BooksBalance(t, evs)
    decreases |evs|
  {
    hide TierStep, NewInTier;
    if evs != [] {
      StepKeepsDistinct(t, evs[0]);
      DistinctTakesOwn(t.tiers, evs[0]);
      DistinctIdsConserve(TierStep(t, evs[0]).0, evs[1..]);
    }
    Conservation(t, evs);
  }

  lemma DistinctTakesOwn(q: Tiers, e: Event)
    requires DistinctWithinTiers(q)
    ensures OwnRemoval(q, e)
  {
    if e.Dequeue? {
      var u := UrgentTier(q, e.now, 0);
      if u < TIERS {
        WithoutIdAt(q[u], FirstUrgent(q[u], e.now));
      }
    }
  }

  lemma RepeatedIdFiled(a: Job, b: Job)
    requires a == Job("x", 2, None) && b == Job("x", 2, Some(0))
    ensures TierStep(TierStep(EMPTY, Enqueue(a)).0, Enqueue(b)).0 == TierState([[], [], [a, b], []], false, 2, 0)
  {
    assert TierStep(EMPTY, Enqueue(a)).0 == TierState([[], [], [a], []], false, 1, 0) by {
      assert [] + [a] == [a];
      assert EMPTY.tiers[2 := [a]] == [[], [], [a], []];
    }
    assert [a] + [b] == [a, b];
    assert [[], [], [a], []][2 := [a, b]] == [[], [], [a, b], []];
  }

  /** Two normal jobs "x", the second one overdue: it is served twice and the first is lost. */
  lemma RepeatedIdServedTwice(a: Job, b: Job)
    requires a == Job("x", 2, None) && b == Job("x", 2, Some(0))
    ensures TierStep(TierStep(EMPTY, Enqueue(a)).0, Enqueue(b)).0 == TierState([[], [], [a, b], []], false, 2, 0)
    ensures TierRun(TierState([[], [], [a, b], []], false, 2, 0), [Dequeue(0)] + [Dequeue(0)])
            == (TierState([[], [], [], []], false, 2, 2), [Dequeued(Some(b))] + [Dequeued(Some(b))])
  {
    RepeatedIdFiled(a, b);
    var t3 := TierState([[], [], [b], []], false, 2, 1);
    var t4 := TierState([[], [], [], []], false, 2, 2);
    ServesTheOverdue(a, b, [[], [], [a, b], []]);
    ServesTheOverdue(b, b, t3.tiers);
    RunStep(TierState([[], [], [a, b], []], false, 2, 0), Dequeue(0), [Dequeue(0)], t3, Dequeued(Some(b)));
    assert TierRun(t3, [Dequeue(0)]) == (t4, [Dequeued(Some(b))]) by {
      RunStep(t3, Dequeue(0), [], t4, Dequeued(Some(b)));
      assert [Dequeue(0)] + [] == [Dequeue(0)];
      assert [Dequeued(Some(b))] + [] == [Dequeued(Some(b))];
    }
  }

  lemma RunStep(t: TierState, e: Event, evs: seq<Event>, t': TierState, r: Reply)
    requires TierStep(t, e) == (t', r)
    ensures TierRun(t, [e] + evs) == (TierRun(t', evs).0, [r] + TierRun(t', evs).1)
  {
    assert ([e] + evs)[1..] == evs;
  }

  lemma ServesTheOverdue(a: Job, b: Job, q: Tiers)
    requires a.id == b.id && b.deadline == Some(0) && (a == b || !Urgent(a, 0))
    requires q == [[], [], if a == b then [b] else [a, b], []]
    ensures Take(q, 0) == ([[], [], if a == b then [] else [b], []], Some(b))
  {
    assert UrgentTier(q, 0, 2) == 2;
    assert UrgentTier(q, 0, 1) == 2;
    assert UrgentTier(q, 0, 0) == 2;
    assert FirstUrgent(q[2], 0) == |q[2]| - 1;
    assert IndexOfId(q[2], b.id) == 0;
    assert RemoveAt(q[2], 0) == if a == b then [] else [b];
    assert q[2 := RemoveAt(q[2], 0)] == [[], [], if a == b then [] else [b], []];
  }

  // ---------------------------------------------------------------- priorities

  lemma {:induction false} AcceptedHolds(t: TierState, evs: seq<Event>, i: nat, f: Job)
    requires |TierRun(t, evs).1| == |evs| && i < |evs|
    requires evs[i].Enqueue? && TierRun(t, evs).1[i] == Enqueued(true) && TakenInAs(evs[i].job, f)
    ensures f in Accepted(evs, TierRun(t, evs).1)
    decreases |evs|
  {
    var (t1, r) := TierStep(t, evs[0]);
    var rs := TierRun(t1, evs[1..]).1;
    assert ([r] + rs)[1..] == rs;
    hide TierStep;
    if i > 0 {
      AcceptedHolds(t1, evs[1..], i - 1, f);
    } else {
      assert TakenIn(evs[0], r) == [f];
    }
  }

  lemma InSomeTier(t: TierState, l: ListState, f: Job)
    requires Refines(t, l) && f in Queued(t.tiers)
    ensures f in l.queue
  {
    hide Filter;
    var p :| 0 <= p < TIERS && f in t.tiers[p];
    FromFilter(l.queue, f, HasPriority(p));
  }

  /** On every run: a job taken in and neither handed out nor cancelled is still there, so a Dequeue
      serves some job; and the job served is urgent while the other is not, or as urgent and of no lower
      tier, the tier of `a` being the one asked for when it was enqueued. */
  lemma PriorityRespected(evs: seq<Event>, i: nat, a: Job, now: int)
    requires NoClash(EMPTY, evs) && |TierRun(EMPTY, evs).1| == |evs| && i < |evs|
    requires evs[i].Enqueue? && TierRun(EMPTY, evs).1[i] == Enqueued(true) && TakenInAs(evs[i].job, a)
    requires a !in Served(TierRun(EMPTY, evs).1) && a !in Dropped(TierRun(EMPTY, evs).1)
    ensures var r := TierStep(TierRun(EMPTY, evs).0, Dequeue(now)).1;
            && r.job.Some?
            && var b := r.job.value;
               if Urgent(a, now) then Urgent(b, now) && b.priority <= a.priority
               else Urgent(b, now) || b.priority <= a.priority
  {
    hide TierRun, TierStep, NoClash, Refines, ListNext, Queued, DistinctWithinTiers;
    EmptyRefines();
    var ls := RunRefines(EMPTY, ListState([], false), evs);
    var t, l := TierRun(EMPTY, evs).0, ls[|evs|];
    StillQueued(evs, i, a);
    InSomeTier(t, l, a);
    ServesBefore(t, l, a, now);
  }

  lemma StillQueued(evs: seq<Event>, i: nat, a: Job)
    requires NoClash(EMPTY, evs) && |TierRun(EMPTY, evs).1| == |evs| && i < |evs|
    requires evs[i].Enqueue? && TierRun(EMPTY, evs).1[i] == Enqueued(true) && TakenInAs(evs[i].job, a)
    requires a !in Served(TierRun(EMPTY, evs).1) && a !in Dropped(TierRun(EMPTY, evs).1)
    ensures a in Queued(TierRun(EMPTY, evs).0.tiers)
  {
    hide TierRun, NoClash, OwnRemovals, Accepted, Served, Dropped, Queued, TakenInAs, DistinctWithinTiers;
    EmptyRefines();
    DistinctIdsConserve(EMPTY, evs);
    AcceptedHolds(EMPTY, evs, i, a);
    NoneQueued();
    var (t, rs) := TierRun(EMPTY, evs);
    assert a in multiset(Accepted(evs, rs)) && a !in multiset(Served(rs)) && a !in multiset(Dropped(rs));
    assert (Queued(t.tiers) + multiset(Served(rs)) + multiset(Dropped(rs)))[a] > 0;
  }

  lemma NoneQueued()
    ensures Queued(EMPTY.tiers) == multiset{}
  {
  }

  lemma ServesBefore(t: TierState, l: ListState, a: Job, now: int)
    requires Refines(t, l) && DistinctWithinTiers(t.tiers) && a in l.queue
    ensures var r := TierStep(t, Dequeue(now)).1;
            && r.Dequeued? && r.job.Some?
            && var b := r.job.value;
               if Urgent(a, now) then Urgent(b, now) && b.priority <= a.priority
               else Urgent(b, now) || b.priority <= a.priority
  {
    var l' := DequeueRefines(t, l, now);
    var s := l.queue;
    var i: nat :| NextUp(s, now, i) && TierStep(t, Dequeue(now)).1 == Dequeued(Some(s[i]));
    var k :| 0 <= k < |s| && s[k] == a;
    assert k != i ==> Before(s, now, i, k);
  }

  /** Of two jobs that are not urgent, the one enqueued with the lower priority number is served first,
      whichever came first. */
  lemma LowerPriorityFirst(a: Job, b: Job, now: int)
    requires 0 <= a.priority < b.priority < 4
    requires a.deadline.Some? ==> a.deadline.value - now > 5_000_000_000
    requires b.deadline.Some? ==> b.deadline.value - now > 5_000_000_000
    ensures var t := TierStep(TierStep(EMPTY, Enqueue(a)).0, Enqueue(b)).0;
            TierStep(t, Dequeue(now)).1 == Dequeued(Some(a))
    ensures var t := TierStep(TierStep(EMPTY, Enqueue(b)).0, Enqueue(a)).0;
            TierStep(t, Dequeue(now)).1 == Dequeued(Some(a))
  {
    var q := EMPTY.tiers[a.priority := [a]][b.priority := [b]];
    TwoFiled(a, b, q);
    TwoFiled(b, a, q);
    TakesLower(a, b, q, now);
    TierServes(TierState(q, false, 2, 0), now);
    hide Take, TierStep;
  }

  lemma TakesLower(a: Job, b: Job, q: Tiers, now: int)
    requires 0 <= a.priority < b.priority < 4 && q == EMPTY.tiers[a.priority := [a]][b.priority := [b]]
    requires a.deadline.Some? ==> a.deadline.value - now > 5_000_000_000
    requires b.deadline.Some? ==> b.deadline.value - now > 5_000_000_000
    ensures Take(q, now).1 == Some(a)
  {
    assert FirstUrgent([a], now) == 1 && FirstUrgent([b], now) == 1 && FirstUrgent([], now) == 0;
    hide FirstUrgent, UrgentTier, FrontTier;
    assert UrgentTier(q, now, 0) == TIERS && FrontTier(q, 0) == a.priority;
  }

  lemma TwoFiled(x: Job, y: Job, q: Tiers)
    requires 0 <= x.priority < 4 && 0 <= y.priority < 4 && x.priority != y.priority
    requires q == EMPTY.tiers[x.priority := [x]][y.priority := [y]]
             || q == EMPTY.tiers[y.priority := [y]][x.priority := [x]]
    ensures TierStep(TierStep(EMPTY, Enqueue(x)).0, Enqueue(y)).0 == TierState(q, false, 2, 0)
  {
    assert [] + [x] == [x] && [] + [y] == [y];
    assert q == EMPTY.tiers[x.priority := [x]][y.priority := [y]];
  }

  // ---------------------------------------------------------------- bounded wait

  function JobsAbove(q: Tiers, p: nat): nat
    requires p <= TIERS
  {
    if p == 0 then 0 else JobsAbove(q, p - 1) + |q[p - 1]|
  }

  /** Jobs of the class `f` in the tiers above `p`. */
  function CountAbove(q: Tiers, p: nat, f: Job -> bool): nat
    requires p <= TIERS
  {
    if p == 0 then 0 else CountAbove(q, p - 1, f) + |Filter(q[p - 1], f)|
  }

  /** Jobs of the class in higher tiers and before the first holder of `id` in tier `p`. */
  function Ahead(q: Tiers, p: nat, id: string, f: Job -> bool): nat
    requires p < TIERS
  {
    CountAbove(q, p, f) + |Filter(q[p][..IndexOfId(q[p], id)], f)|
  }

  predicate IsAbove(taken: seq<Job>, p: nat, f: Job -> bool) {
    taken != [] && taken[0].priority < p && f(taken[0])
  }

  function AcceptedAbove(evs: seq<Event>, rs: seq<Reply>, p: nat, f: Job -> bool): nat
    requires |evs| == |rs|
  {
    if evs == [] then 0
    else (if IsAbove(TakenIn(evs[0], rs[0]), p, f) then 1 else 0) + AcceptedAbove(evs[1..], rs[1..], p, f)
  }

  function UrgentBy(time: int): Job -> bool {
    (j: Job) => Urgent(j, time)
  }

  function DequeueCalls(evs: seq<Event>): nat {
    if evs == [] then 0 else (if evs[0].Dequeue? then 1 else 0) + DequeueCalls(evs[1..])
  }

  lemma JobsAboveUpdate(q: Tiers, p: nat, r: nat, s: seq<Job>)
    requires p <= TIERS && r < TIERS
    ensures JobsAbove(q[r := s], p) == JobsAbove(q, p) + (if r < p then |s| - |q[r]| else 0)
  {
    if p > 0 {
      JobsAboveUpdate(q, p - 1, r, s);
    }
  }

  lemma CountAboveUpdate(q: Tiers, p: nat, r: nat, s: seq<Job>, f: Job -> bool)
    requires p <= TIERS && r < TIERS
    ensures CountAbove(q[r := s], p, f)
            == CountAbove(q, p, f) + if r < p then |Filter(s, f)| - |Filter(q[r], f)| else 0
  {
    hide Filter;
    if p > 0 {
      CountAboveUpdate(q, p - 1, r, s, f);
    }
  }

  lemma CountRemoved(s: seq<Job>, i: nat, f: Job -> bool)
    requires i < |s|
    ensures |Filter(RemoveAt(s, i), f)| == |Filter(s, f)| - if f(s[i]) then 1 else 0
  {
    hide Filter;
    FilterSplit(s, i, f);
    FilterRemoved(s, i, f);
  }

  lemma CountArrived(s: seq<Job>, j: Job, f: Job -> bool)
    ensures |Filter(s + [j], f)| == |Filter(s, f)| + if f(j) then 1 else 0
  {
    hide Filter;
    FilterConcat(s, [j], f);
    FilterOne(j, f);
  }

  lemma IndexAfterRemoval(s: seq<Job>, i: nat, id: string)
    requires DistinctIds(s) && i < |s| && s[i].id != id && IndexOfId(s, id) < |s|
    ensures var s' := RemoveAt(s, i);
            var k := IndexOfId(s, id);
            IndexOfId(s', id) == (if i < k then k - 1 else k) < |s'| && s'[IndexOfId(s', id)] == s[k]
  {
    var s' := RemoveAt(s, i);
    var k := IndexOfId(s, id);
    assert s'[if i < k then k - 1 else k] == s[k];
  }

  ghost predicate QueuedIn(q: Tiers, p: nat, j: Job) {
    && p < TIERS
    && IndexOfId(q[p], j.id) < |q[p]|
    && q[p][IndexOfId(q[p], j.id)] == j
  }

  lemma BeforeAfterRemoval(s: seq<Job>, i: nat, k: nat)
    requires i < |s| && k <= |s| && i != k
    ensures RemoveAt(s, i)[..if i < k then k - 1 else k] == if i < k then RemoveAt(s[..k], i) else s[..k]
  {
    if i < k {
      var x, y := RemoveAt(s, i)[..k - 1], RemoveAt(s[..k], i);
      assert forall m | 0 <= m < k - 1 :: x[m] == s[if m < i then m else m + 1] == y[m];
    }
  }

  lemma CountBefore(s: seq<Job>, i: nat, k: nat, f: Job -> bool)
    requires i < |s| && k <= |s| && i != k
    ensures |Filter(RemoveAt(s, i)[..if i < k then k - 1 else k], f)|
            == |Filter(s[..k], f)| - if i < k && f(s[i]) then 1 else 0
  {
    hide Filter;
    BeforeAfterRemoval(s, i, k);
    if i < k {
      CountRemoved(s[..k], i, f);
    }
  }

  /** Taking another job out of the queue never moves `j` back. */
  lemma RemovalBringsForward(q: Tiers, p: nat, j: Job, r: nat, i: nat, f: Job -> bool)
    requires DistinctWithinTiers(q) && QueuedIn(q, p, j) && r < TIERS && i < |q[r]|
    requires r == p ==> q[r][i] != j
    ensures var q' := q[r := RemoveAt(q[r], i)];
            && QueuedIn(q', p, j)
            && Ahead(q', p, j.id, f) == Ahead(q, p, j.id, f)
               - if (r < p || (r == p && i < IndexOfId(q[p], j.id))) && f(q[r][i]) then 1 else 0
  {
    hide Filter, IndexOfId;
    CountAboveUpdate(q, p, r, RemoveAt(q[r], i), f);
    CountRemoved(q[r], i, f);
    if r == p {
      WithoutIdAt(q[p], i);
      IndexAfterRemoval(q[p], i, j.id);
      CountBefore(q[p], i, IndexOfId(q[p], j.id), f);
    }
  }

  lemma IndexAfterArrival(s: seq<Job>, x: Job, id: string)
    requires IndexOfId(s, id) < |s|
    ensures IndexOfId(s + [x], id) == IndexOfId(s, id)
  {
    hide IndexOfId;
    assert (s + [x])[IndexOfId(s, id)] == s[IndexOfId(s, id)];
  }

  lemma ArrivalBehind(q: Tiers, p: nat, j: Job, x: Job, f: Job -> bool)
    requires QueuedIn(q, p, j) && 0 <= x.priority < TIERS
    ensures var q' := q[x.priority := q[x.priority] + [x]];
            && QueuedIn(q', p, j)
            && Ahead(q', p, j.id, f) == Ahead(q, p, j.id, f) + if x.priority < p && f(x) then 1 else 0
  {
    hide Filter, IndexOfId;
    CountAboveUpdate(q, p, x.priority, q[x.priority] + [x], f);
    CountArrived(q[x.priority], x, f);
    if x.priority == p {
      var k := IndexOfId(q[p], j.id);
      IndexAfterArrival(q[p], x, j.id);
      assert (q[p] + [x])[k] == j && (q[p] + [x])[..k] == q[p][..k];
    }
  }

  /** The job served before an urgent `j` is itself urgent. */
  lemma ServedFromAhead(q: Tiers, now: int, p: nat, j: Job, f: Job -> bool)
    requires DistinctWithinTiers(q) && QueuedIn(q, p, j) && Urgent(j, now) && Take(q, now).1 != Some(j)
    requires forall x | Urgent(x, now) :: f(x)
    ensures Take(q, now).1.Some? && Urgent(Take(q, now).1.value, now)
    ensures QueuedIn(Take(q, now).0, p, j) && Ahead(Take(q, now).0, p, j.id, f) == Ahead(q, p, j.id, f) - 1
  {
    hide IndexOfId, Ahead;
    var u := UrgentTier(q, now, 0);
    assert u <= p;
    var i := FirstUrgent(q[u], now);
    TakeIsRemoval(q, now, u, i);
    RemovalBringsForward(q, p, j, u, i, f);
    assert Urgent(q[u][i], now);
  }

  /** One step while `j` stays queued: a served job comes off the jobs ahead of `j`. */
  lemma StepBringsForward(t: TierState, e: Event, p: nat, j: Job, f: Job -> bool)
    requires DistinctWithinTiers(t.tiers) && QueuedIn(t.tiers, p, j)
    requires e.Dequeue? ==> Urgent(j, e.now) && forall x | Urgent(x, e.now) :: f(x)
    requires var r := TierStep(t, e).1; r != Dequeued(Some(j)) && r != Cancelled(Some(j))
    ensures var (t', r) := TierStep(t, e);
            && QueuedIn(t'.tiers, p, j)
            && |HandedOut(r)| == (if e.Dequeue? then 1 else 0)
            && Ahead(t'.tiers, p, j.id, f) + |HandedOut(r)|
               <= Ahead(t.tiers, p, j.id, f) + if IsAbove(TakenIn(e, r), p, f) then 1 else 0
  {
    hide Ahead;
    match e
    case Enqueue(job) => ArrivalBehind(t.tiers, p, j, Filed(job), f);
    case Dequeue(now) => ServedFromAhead(t.tiers, now, p, j, f);
    case Cancel(id) =>
      var r := TierOfId(t.tiers, id, 0);
      if r < TIERS {
        RemovalBringsForward(t.tiers, p, j, r, IndexOfId(t.tiers[r], id), f);
      }
    case Close =>
  }

  ghost predicate UrgentThroughout(evs: seq<Event>, j: Job) {
    forall e | e in evs && e.Dequeue? :: Urgent(j, e.now)
  }

  /** The class holds every job that is urgent at some Dequeue of the run. */
  ghost predicate HoldsUrgent(evs: seq<Event>, f: Job -> bool) {
    forall e, x | e in evs && e.Dequeue? && Urgent(x, e.now) :: f(x)
  }

  /** As long as an urgent job `j` stays queued, every Dequeue serves a job, and at most the jobs ahead
      of it at the start plus those later accepted into higher tiers are served.  Only jobs urgent at
      some Dequeue count: `f` is any class that holds all of these. */
  lemma {:induction false} BoundedWait(t: TierState, evs: seq<Event>, p: nat, j: Job, f: Job -> bool)
    requires DistinctWithinTiers(t.tiers) && NoClash(t, evs) && p < TIERS && j in t.tiers[p]
    requires UrgentThroughout(evs, j) && HoldsUrgent(evs, f)
    requires j !in Served(TierRun(t, evs).1) && j !in Dropped(TierRun(t, evs).1)
    ensures |TierRun(t, evs).1| == |evs|
    ensures var (t', rs) := TierRun(t, evs);
            && j in t'.tiers[p] && |Served(rs)| == DequeueCalls(evs)
            && Ahead(t'.tiers, p, j.id, f) + |Served(rs)| <= Ahead(t.tiers, p, j.id, f) + AcceptedAbove(evs, rs, p, f)
    decreases |evs|
  {
    hide Ahead, TierStep, NewInTier, IsAbove;
    if evs != [] {
      var (t1, r) := TierStep(t, evs[0]);
      var rs := TierRun(t1, evs[1..]).1;
      var k :| 0 <= k < |t.tiers[p]| && t.tiers[p][k] == j;
      WithoutIdAt(t.tiers[p], k);
      RunLength(t1, evs[1..]);
      assert ([r] + rs)[1..] == rs && evs[0] in evs;
      StepBringsForward(t, evs[0], p, j, f);
      StepKeepsDistinct(t, evs[0]);
      BoundedWait(t1, evs[1..], p, j, f);
    }
  }

  /** An urgent job is gone from the queue once Dequeue was called more often than there were jobs
      ahead, and later arrivals above, that were urgent by the last of the calls. */
  lemma ServedInTime(t: TierState, evs: seq<Event>, p: nat, j: Job, first: int, last: int)
    requires DistinctWithinTiers(t.tiers) && NoClash(t, evs) && p < TIERS && j in t.tiers[p]
    requires Urgent(j, first) && forall e | e in evs && e.Dequeue? :: first <= e.now <= last
    requires |TierRun(t, evs).1| == |evs|
    requires DequeueCalls(evs)
             > Ahead(t.tiers, p, j.id, UrgentBy(last)) + AcceptedAbove(evs, TierRun(t, evs).1, p, UrgentBy(last))
    ensures j in Served(TierRun(t, evs).1) || j in Dropped(TierRun(t, evs).1)
  {
    hide Ahead, AcceptedAbove;
    if j !in Served(TierRun(t, evs).1) && j !in Dropped(TierRun(t, evs).1) {
      BoundedWait(t, evs, p, j, UrgentBy(last));
    }
  }
}
