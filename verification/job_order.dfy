/** What the deadline-aware priority queue serves next, stated on four tiers of jobs
    (the shape of the code) and on one list in arrival order (the shape of the promise). */
module JobOrder {
  import opened Common

  const TIERS: nat := 4
  const PRIORITY_NORMAL: int := 2

  // Five seconds in nanoseconds, the unit of Go's time.Duration.
  const URGENCY_THRESHOLD: int := 5_000_000_000

  // A zero time.Time deadline is None.
  datatype Job = Job(id: string, priority: int, deadline: Option<int>)

  predicate Urgent(j: Job, now: int) {
    j.deadline.Some? && j.deadline.value - now <= URGENCY_THRESHOLD
  }

  /** Priorities outside the four tiers are filed as normal. */
  function Filed(j: Job): Job {
    if 0 <= j.priority < TIERS then j else j.(priority := PRIORITY_NORMAL)
  }

  type Tiers = q: seq<seq<Job>> | |q| == TIERS witness [[], [], [], []]

  // ---------------------------------------------------------------- four tiers

  /** Index of the first job with this ID, or the length. */
  function IndexOfId(s: seq<Job>, id: string): (i: nat)
    ensures i <= |s|
    ensures forall k | 0 <= k < i :: s[k].id != id
    ensures i < |s| ==> s[i].id == id
  {
    if s == [] || s[0].id == id then 0 else 1 + IndexOfId(s[1..], id)
  }

  /** Index of the first urgent job, or the length. */
  function FirstUrgent(s: seq<Job>, now: int): (i: nat)
    ensures i <= |s|
    ensures forall k | 0 <= k < i :: !Urgent(s[k], now)
    ensures i < |s| ==> Urgent(s[i], now)
  {
    if s == [] || Urgent(s[0], now) then 0 else 1 + FirstUrgent(s[1..], now)
  }

  function WithoutId(s: seq<Job>, id: string): seq<Job> {
    var i := IndexOfId(s, id);
    if i < |s| then RemoveAt(s, i) else s
  }

  /** First tier from `p` on that holds an urgent job, or TIERS. */
  function UrgentTier(q: Tiers, now: int, p: nat): (r: nat)
    requires p <= TIERS
    ensures p <= r <= TIERS
    ensures forall k | p <= k < r :: FirstUrgent(q[k], now) == |q[k]|
    ensures r < TIERS ==> FirstUrgent(q[r], now) < |q[r]|
    decreases TIERS - p
  {
    if p == TIERS || FirstUrgent(q[p], now) < |q[p]| then p else UrgentTier(q, now, p + 1)
  }

  /** First non-empty tier from `p` on, or TIERS. */
  function FrontTier(q: Tiers, p: nat): (r: nat)
    requires p <= TIERS
    ensures p <= r <= TIERS
    ensures forall k | p <= k < r :: q[k] == []
    ensures r < TIERS ==> q[r] != []
    decreases TIERS - p
  {
    if p == TIERS || q[p] != [] then p else FrontTier(q, p + 1)
  }

  /** First tier from `p` on that holds a job with this ID, or TIERS. */
  function TierOfId(q: Tiers, id: string, p: nat): (r: nat)
    requires p <= TIERS
    ensures p <= r <= TIERS
    ensures forall k | p <= k < r :: IndexOfId(q[k], id) == |q[k]|
    ensures r < TIERS ==> IndexOfId(q[r], id) < |q[r]|
    decreases TIERS - p
  {
    if p == TIERS || IndexOfId(q[p], id) < |q[p]| then p else TierOfId(q, id, p + 1)
  }

  datatype Event = Enqueue(job: Job) | Dequeue(now: int) | Cancel(id: string) | Close

  // Dequeued(None) is the case in which the caller goes to sleep.
  // The code's Cancel answers only whether a job was found.
  datatype Reply = Enqueued(ok: bool) | Dequeued(job: Option<Job>) | Cancelled(job: Option<Job>) | Closed

  datatype TierState = TierState(tiers: Tiers, closed: bool, enqueued: nat, dequeued: nat)

  const EMPTY: TierState := TierState([[], [], [], []], false, 0, 0)

  /** The urgent job found by the scan, and the tiers after removing it by ID. */
  function TakeUrgent(q: Tiers, now: int): (Tiers, Option<Job>) {
    var u := UrgentTier(q, now, 0);
    if u == TIERS then (q, None)
    else
      var j := q[u][FirstUrgent(q[u], now)];
      (q[u := WithoutId(q[u], j.id)], Some(j))
  }

  function TakeFront(q: Tiers): (Tiers, Option<Job>) {
    var p := FrontTier(q, 0);
    if p == TIERS then (q, None) else (q[p := q[p][1..]], Some(q[p][0]))
  }

  function Take(q: Tiers, now: int): (Tiers, Option<Job>) {
    var urgent := TakeUrgent(q, now);
    if urgent.1.Some? then urgent else TakeFront(q)
  }

  function Drop(q: Tiers, id: string): (Tiers, Option<Job>) {
    var p := TierOfId(q, id, 0);
    if p == TIERS then (q, None) else (q[p := WithoutId(q[p], id)], Some(q[p][IndexOfId(q[p], id)]))
  }

  function TierStep(t: TierState, e: Event): (TierState, Reply) {
    match e
    case Enqueue(job) =>
      if t.closed then (t, Enqueued(false))
      else
        var j := Filed(job);
        (t.(tiers := t.tiers[j.priority := t.tiers[j.priority] + [j]], enqueued := t.enqueued + 1), Enqueued(true))
    case Dequeue(now) =>
      var (q, job) := Take(t.tiers, now);
      (t.(tiers := q, dequeued := t.dequeued + if job.Some? then 1 else 0), Dequeued(job))
    case Cancel(id) =>
      var (q, job) := Drop(t.tiers, id);
      (t.(tiers := q), Cancelled(job))
    case Close => (t.(closed := true), Closed)
  }

  /** State and replies after a whole run. */
  function TierRun(t: TierState, evs: seq<Event>): (TierState, seq<Reply>)
    decreases |evs|
  {
    if evs == [] then (t, [])
    else
      var (t', r) := TierStep(t, evs[0]);
      var (t'', rs) := TierRun(t', evs[1..]);
      (t'', [r] + rs)
  }

  // ---------------------------------------------------------------- one list in arrival order

  /** Job `i` goes before job `k`: urgent first, then the higher tier, then the earlier arrival. */
  predicate Before(s: seq<Job>, now: int, i: nat, k: nat)
    requires i < |s| && k < |s|
  {
    if Urgent(s[i], now) != Urgent(s[k], now) then Urgent(s[i], now)
    else if s[i].priority != s[k].priority then s[i].priority < s[k].priority
    else i < k
  }

  predicate NextUp(s: seq<Job>, now: int, i: nat) {
    && i < |s|
    && forall k: nat | k < |s| && k != i :: Before(s, now, i, k)
  }

  /** Cancel takes the match in the highest tier, the earliest arrival within it. */
  predicate FirstMatch(s: seq<Job>, id: string, i: nat) {
    && i < |s| && s[i].id == id
    && forall k | 0 <= k < |s| && k != i && s[k].id == id ::
         s[i].priority < s[k].priority || (s[i].priority == s[k].priority && i < k)
  }

  datatype ListState = ListState(queue: seq<Job>, closed: bool)

  /** How a job is taken in: as it comes when its priority names a tier, else as a normal one. */
  predicate TakenInAs(job: Job, filed: Job) {
    && filed.id == job.id && filed.deadline == job.deadline
    && filed.priority == if job.priority in {0, 1, 2, 3} then job.priority else 2
  }

  ghost predicate ListNext(l: ListState, e: Event, r: Reply, l': ListState) {
    match e
    case Enqueue(job) =>
      && r == Enqueued(!l.closed)
      && if l.closed then l' == l
         else exists f :: TakenInAs(job, f) && l' == l.(queue := l.queue + [f])
    case Dequeue(now) =>
      if l.queue == [] then r == Dequeued(None) && l' == l
      else exists i: nat :: NextUp(l.queue, now, i)
             && r == Dequeued(Some(l.queue[i])) && l' == l.(queue := RemoveAt(l.queue, i))
    case Cancel(id) =>
      if forall j | j in l.queue :: j.id != id then r == Cancelled(None) && l' == l
      else exists i: nat :: FirstMatch(l.queue, id, i)
             && r == Cancelled(Some(l.queue[i])) && l' == l.(queue := RemoveAt(l.queue, i))
    case Close => r == Closed && l' == l.(closed := true)
  }

  function HasPriority(p: int): Job -> bool {
    (j: Job) => j.priority == p
  }

  /** The jobs of one tier, in arrival order. */
  function TierOf(s: seq<Job>, p: int): seq<Job> {
    Filter(s, HasPriority(p))
  }

  ghost predicate Refines(t: TierState, l: ListState) {
    && t.closed == l.closed
    && (forall j | j in l.queue :: 0 <= j.priority < TIERS)
    && (forall p | 0 <= p < TIERS :: t.tiers[p] == TierOf(l.queue, p))
  }

  // ---------------------------------------------------------------- assumption on IDs

  predicate DistinctIds(s: seq<Job>) {
    forall a, b | 0 <= a < b < |s| :: s[a].id != s[b].id
  }

  predicate DistinctWithinTiers(q: Tiers) {
    forall p | 0 <= p < TIERS :: DistinctIds(q[p])
  }

  /** No job is enqueued while its tier still holds a job with the same ID. */
  predicate NoClash(t: TierState, evs: seq<Event>)
    decreases |evs|
  {
    evs != [] ==>
      && (evs[0].Enqueue? ==> NewInTier(t.tiers, Filed(evs[0].job)))
      && NoClash(TierStep(t, evs[0]).0, evs[1..])
  }

  predicate NewInTier(q: Tiers, j: Job)
    requires 0 <= j.priority < TIERS
  {
    IndexOfId(q[j.priority], j.id) == |q[j.priority]|
  }
}
