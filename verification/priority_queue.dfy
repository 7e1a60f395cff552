/** The deadline-aware priority queue itself: four deques updated in place. */
module PriorityQueue {
  import opened Common
  import opened JobOrder

  class ConcurrentDeque {
    var items: seq<Job>

    constructor ()
      ensures items == []
    {
      items := [];
    }

    method PushBack(job: Job)
      modifies this
      ensures items == old(items) + [job]
    {
      items := items + [job];
    }

    method PopFront() returns (job: Option<Job>)
      modifies this
      ensures if old(items) == [] then job == None && items == []
              else job == Some(old(items)[0]) && items == old(items)[1..]
    {
      if |items| == 0 {
        return None;
      }
      job := Some(items[0]);
      items := items[1..];
    }

    method Remove(id: string) returns (ok: bool)
      modifies this
      ensures ok == exists j :: j in old(items) && j.id == id
      ensures items == WithoutId(old(items), id)
    {
      for i := 0 to |items|
        invariant items == old(items)
        invariant forall k | 0 <= k < i :: items[k].id != id
      {
        if items[i].id == id {
          assert i == IndexOfId(items, id);
          items := items[..i] + items[i + 1..];
          return true;
        }
      }
      return false;
    }
  }

  lemma SameTiers(a: Tiers, b: Tiers)
    requires forall p | 0 <= p < TIERS :: a[p] == b[p]
    ensures a == b
  {
  }

  /** At most five seconds before its deadline, or past it. */
  predicate NearDeadline(j: Job, now: int) {
    j.deadline.Some? && j.deadline.value <= now + 5_000_000_000
  }

  lemma UrgencyTested(j: Job, now: int)
    ensures Urgent(j, now) <==> NearDeadline(j, now)
    ensures Urgent(j, now) <==> j.deadline.Some? && j.deadline.value - now <= URGENCY_THRESHOLD
  {
  }

  lemma FoundUrgent(q: Tiers, now: int, p: nat, i: nat)
    requires p < TIERS && forall k | 0 <= k < p :: FirstUrgent(q[k], now) == |q[k]|
    requires i < |q[p]| && Urgent(q[p][i], now) && forall k | 0 <= k < i :: !Urgent(q[p][k], now)
    ensures TakeUrgent(q, now) == (q[p := WithoutId(q[p], q[p][i].id)], Some(q[p][i]))
    ensures exists j :: j in q[p] && j.id == q[p][i].id
  {
    hide Urgent, FirstUrgent, UrgentTier, WithoutId;
    assert FirstUrgent(q[p], now) == i;
    assert UrgentTier(q, now, 0) == p;
    assert q[p][i] in q[p];
  }

  lemma NoneUrgent(q: Tiers, now: int)
    requires forall k | 0 <= k < TIERS :: FirstUrgent(q[k], now) == |q[k]|
    ensures TakeUrgent(q, now) == (q, None)
  {
    hide Urgent, FirstUrgent, UrgentTier, WithoutId;
  }

  lemma UrgentOrFront(q: Tiers, now: int)
    ensures if TakeUrgent(q, now).1.Some? then Take(q, now) == TakeUrgent(q, now)
            else TakeUrgent(q, now).0 == q && Take(q, now) == TakeFront(q)
  {
  }

  lemma NoneNear(q: Tiers, now: int)
    requires forall k | 0 <= k < TIERS :: FirstUrgent(q[k], now) == |q[k]|
    ensures forall p, k | 0 <= p < TIERS && 0 <= k < |q[p]| :: !NearDeadline(q[p][k], now)
  {
    hide FirstUrgent;
    forall p, k | 0 <= p < TIERS && 0 <= k < |q[p]| ensures !NearDeadline(q[p][k], now) {
      assert FirstUrgent(q[p], now) == |q[p]|;
      UrgencyTested(q[p][k], now);
    }
  }

  lemma HasId(s: seq<Job>, id: string)
    ensures IndexOfId(s, id) < |s| <==> exists j :: j in s && j.id == id
    ensures IndexOfId(s, id) == |s| ==> WithoutId(s, id) == s
  {
    hide IndexOfId;
    if IndexOfId(s, id) < |s| {
      assert s[IndexOfId(s, id)] in s;
    }
  }

  lemma DroppedFrom(q: Tiers, id: string, p: nat)
    requires p < TIERS && IndexOfId(q[p], id) < |q[p]|
    requires forall k | 0 <= k < p :: IndexOfId(q[k], id) == |q[k]|
    ensures Drop(q, id) == (q[p := WithoutId(q[p], id)], Some(q[p][IndexOfId(q[p], id)]))
  {
    hide IndexOfId, TierOfId, WithoutId;
    assert TierOfId(q, id, 0) == p;
  }

  lemma NothingDropped(q: Tiers, id: string)
    requires forall k | 0 <= k < TIERS :: IndexOfId(q[k], id) == |q[k]|
    ensures Drop(q, id) == (q, None)
  {
    hide IndexOfId, TierOfId, WithoutId;
  }

  class PriorityQueue {
    const queues: seq<ConcurrentDeque>
    var closed: bool
    var enqueued: nat
    var dequeued: nat

    ghost predicate Valid()
    {
      |queues| == TIERS && forall p, r | 0 <= p < r < TIERS :: queues[p] != queues[r]
    }

    ghost function Contents(): (q: Tiers)
      reads queues
      requires Valid()
      ensures forall p | 0 <= p < TIERS :: q[p] == queues[p].items
    {
      var q := [queues[0].items, queues[1].items, queues[2].items, queues[3].items];
      assert |q| == 4;
      q
    }

    ghost function View(): TierState
      reads this, queues
      requires Valid()
    {
      TierState(Contents(), closed, enqueued, dequeued)
    }

    constructor ()
      ensures Valid() && fresh(queues) && View() == EMPTY
    {
      var realtime := new ConcurrentDeque();
      var high := new ConcurrentDeque();
      var normal := new ConcurrentDeque();
      var low := new ConcurrentDeque();
      queues := [realtime, high, normal, low];
      closed, enqueued, dequeued := false, 0, 0;
    }

    method Enqueue(job: Job) returns (ok: bool)
      requires Valid()
      modifies this, queues
      ensures (View(), Enqueued(ok)) == TierStep(old(View()), Event.Enqueue(job))
      ensures ok == !old(closed)
      ensures ok && 0 <= job.priority < 4 ==>
                Contents() == old(Contents())[job.priority := old(Contents())[job.priority] + [job]]
      ensures ok && !(0 <= job.priority < 4) ==>
                Contents() == old(Contents())[2 := old(Contents())[2] + [Job(job.id, 2, job.deadline)]]
      ensures !ok ==> Contents() == old(Contents())
    {
      if closed {
        return false;
      }
      var filed := job;
      if job.priority < 0 || job.priority > 3 {
        filed := job.(priority := PRIORITY_NORMAL);
      }
      queues[filed.priority].PushBack(filed);
      assert Contents() == old(Contents())[filed.priority := queues[filed.priority].items];
      enqueued := enqueued + 1;
      ok := true;
    }

    /** Scans the tiers for a job close to or past its deadline and takes it out by ID. */
    method FindUrgentDeadlineJob(now: int) returns (job: Option<Job>)
      requires Valid()
      modifies queues
      ensures (Contents(), job) == TakeUrgent(old(Contents()), now)
      ensures job.Some? ==> NearDeadline(job.value, now)
      ensures job.None? ==> forall p, k | 0 <= p < TIERS && 0 <= k < |queues[p].items| ::
                              !NearDeadline(queues[p].items[k], now)
    {
      hide Urgent, FirstUrgent, UrgentTier, WithoutId, Contents;
      ghost var q := Contents();
      for p := 0 to TIERS
        invariant forall k | 0 <= k < TIERS :: queues[k].items == q[k]
        invariant forall k | 0 <= k < p :: FirstUrgent(q[k], now) == |q[k]|
      {
        var queue := queues[p];
        var i := 0;
        while i < |queue.items|
          invariant 0 <= i <= |queue.items|
          invariant forall k | 0 <= k < TIERS :: queues[k].items == q[k]
          invariant forall k | 0 <= k < i :: !Urgent(q[p][k], now)
        {
          var candidate := queue.items[i];
          UrgencyTested(candidate, now);
          if candidate.deadline.Some? {
            var timeUntilDeadline := candidate.deadline.value - now;
            if timeUntilDeadline <= URGENCY_THRESHOLD && timeUntilDeadline > 0 {
              FoundUrgent(q, now, p, i);
              var removed := queue.Remove(candidate.id);
              SameTiers(Contents(), q[p := queue.items]);
              if removed {
                return Some(candidate);
              }
            } else if timeUntilDeadline <= 0 {
              FoundUrgent(q, now, p, i);
              var removed := queue.Remove(candidate.id);
              SameTiers(Contents(), q[p := queue.items]);
              if removed {
                return Some(candidate);
              }
            }
          }
          i := i + 1;
        }
      }
      NoneUrgent(q, now);
      NoneNear(q, now);
      SameTiers(Contents(), q);
      return None;
    }

    /** Serves the front of the first non-empty tier. */
    method PopByPriority() returns (job: Option<Job>)
      requires Valid()
      modifies queues
      ensures (Contents(), job) == TakeFront(old(Contents()))
    {
      hide FrontTier, Contents;
      ghost var q := Contents();
      for p := 0 to TIERS
        invariant forall k | 0 <= k < TIERS :: queues[k].items == q[k]
        invariant forall k | 0 <= k < p :: q[k] == []
      {
        job := queues[p].PopFront();
        SameTiers(Contents(), q[p := queues[p].items]);
        if job.Some? {
          assert FrontTier(q, 0) == p;
          return;
        }
      }
      SameTiers(Contents(), q);
      return None;
    }

    /** One pass of the Dequeue loop; None is where the caller goes to sleep. */
    method Dequeue(now: int) returns (job: Option<Job>)
      requires Valid()
      modifies this, queues
      ensures (View(), Dequeued(job)) == TierStep(old(View()), Event.Dequeue(now))
    {
      hide Take, TakeUrgent, TakeFront, Contents;
      UrgentOrFront(Contents(), now);
      job := FindUrgentDeadlineJob(now);
      if job.Some? {
        dequeued := dequeued + 1;
        return;
      }
      job := PopByPriority();
      if job.Some? {
        dequeued := dequeued + 1;
      }
    }

    method Cancel(id: string) returns (ok: bool)
      requires Valid()
      modifies queues
      ensures View() == TierStep(old(View()), Event.Cancel(id)).0
      ensures ok == TierStep(old(View()), Event.Cancel(id)).1.job.Some?
    {
      hide TierOfId, IndexOfId, WithoutId, Contents;
      ghost var q := Contents();
      for p := 0 to TIERS
        invariant forall k | 0 <= k < TIERS :: queues[k].items == q[k]
        invariant forall k | 0 <= k < p :: IndexOfId(q[k], id) == |q[k]|
      {
        HasId(q[p], id);
        ok := queues[p].Remove(id);
        if ok {
          DroppedFrom(q, id, p);
          SameTiers(Contents(), q[p := queues[p].items]);
          return;
        }
      }
      NothingDropped(q, id);
      SameTiers(Contents(), q);
      return false;
    }

    method Close()
      requires Valid()
      modifies this
      ensures View() == TierStep(old(View()), Event.Close).0
    {
      closed := true;
    }
  }
}
