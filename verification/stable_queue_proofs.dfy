/** The queue's list is the stable descending-priority sort of the requests still waiting. */
module StableQueueProofs {
  import opened Common
  import opened StableQueue

  function HasPriority(p: int): Request -> bool {
    (r: Request) => r.priority == p
  }

  predicate Descending(s: seq<Request>) {
    forall i, k | 0 <= i < k < |s| :: s[i].priority >= s[k].priority
  }

  /** Sorted, and within every priority the same requests in the same order. */
  ghost predicate StableSortOf(s: seq<Request>, waiting: seq<Request>) {
    && Descending(s)
    && |s| == |waiting|
    && forall p: int :: Filter(s, HasPriority(p)) == Filter(waiting, HasPriority(p))
  }

  // ---------------------------------------------------------------- the requests waiting, in arrival order

  /** The earliest arrival among those of the highest priority. */
  predicate NextUp(waiting: seq<Request>, i: nat) {
    && i < |waiting|
    && forall k | 0 <= k < |waiting| && k != i ::
         waiting[k].priority < waiting[i].priority || (waiting[k].priority == waiting[i].priority && i < k)
  }

  /** Among the pending requests with this ID, the earliest arrival of the highest priority. */
  predicate FirstMatch(waiting: seq<Request>, id: string, pending: set<Request>, i: nat) {
    && i < |waiting| && waiting[i].id == id && waiting[i] in pending
    && forall k | 0 <= k < |waiting| && k != i && waiting[k].id == id && waiting[k] in pending ::
         waiting[k].priority < waiting[i].priority || (waiting[k].priority == waiting[i].priority && i < k)
  }

  ghost predicate ArrivalNext(maxSize: nat, w: seq<Request>, e: Event, r: Reply, w': seq<Request>) {
    match e
    case Enqueue(req) => r == Accepted(|w| < maxSize) && w' == if |w| < maxSize then w + [req] else w
    case Dequeue =>
      if w == [] then r == Taken(None) && w' == w
      else exists i: nat :: NextUp(w, i) && r == Taken(Some(w[i])) && w' == RemoveAt(w, i)
    case Cancel(id, pending) =>
      if forall q | q in w :: !(q.id == id && q in pending) then r == Cancelled(None) && w' == w
      else exists i: nat :: FirstMatch(w, id, pending, i) && r == Cancelled(Some(w[i])) && w' == RemoveAt(w, i)
  }

  // ---------------------------------------------------------------- uniqueness of the stable sort

  lemma LastOfPriority(s: seq<Request>)
    requires s != []
    ensures var n, p := |s| - 1, s[|s| - 1].priority;
            var f := Filter(s, HasPriority(p));
            f != [] && f[|f| - 1] == s[n] && f[..|f| - 1] == Filter(s[..n], HasPriority(p))
  {
  }

  lemma OnBothSides(s: seq<Request>, t: seq<Request>, x: Request)
    requires x in s && Filter(s, HasPriority(x.priority)) == Filter(t, HasPriority(x.priority))
    ensures x in t
  {
    var i :| 0 <= i < |s| && s[i] == x;
    InFilter(s, i, HasPriority(x.priority));
    FromFilter(t, x, HasPriority(x.priority));
  }

  lemma {:induction false} StableSortUnique(s: seq<Request>, t: seq<Request>, waiting: seq<Request>)
    requires StableSortOf(s, waiting) && StableSortOf(t, waiting)
    ensures s == t
  {
    StableOrderUnique(s, t);
  }

  lemma {:induction false} StableOrderUnique(s: seq<Request>, t: seq<Request>)
    requires Descending(s) && Descending(t) && |s| == |t|
    requires forall p: int :: Filter(s, HasPriority(p)) == Filter(t, HasPriority(p))
    ensures s == t
    decreases |s|
  {
    if s != [] {
      var n := |s| - 1;
      OnBothSides(s, t, s[n]);
      OnBothSides(t, s, t[n]);
      var p := s[n].priority;
      assert p == t[n].priority;
      LastOfPriority(s);
      LastOfPriority(t);
      forall q: int ensures Filter(s[..n], HasPriority(q)) == Filter(t[..n], HasPriority(q)) {
        if q != p {
          assert Filter(s[..n], HasPriority(q)) == Filter(s, HasPriority(q)) == Filter(t, HasPriority(q));
        }
      }
      StableOrderUnique(s[..n], t[..n]);
    }
  }

  // ---------------------------------------------------------------- one step

  /** The `k`-th request of the sorted list, found among the waiting ones. */
  lemma FindWaiting(s: seq<Request>, w: seq<Request>, k: nat) returns (i: nat)
    requires StableSortOf(s, w) && k < |s|
    ensures i < |w| && w[i] == s[k]
    ensures Filter(w[..i], HasPriority(s[k].priority)) == Filter(s[..k], HasPriority(s[k].priority))
    ensures StableSortOf(RemoveAt(s, k), RemoveAt(w, i))
  {
    hide Filter;
    var p := s[k].priority;
    FilterSplit(s, k, HasPriority(p));
    FilterRemoved(s, k, HasPriority(p));
    var m := |Filter(s[..k], HasPriority(p))|;
    assert Filter(w, HasPriority(p)) == Filter(s, HasPriority(p));
    i := Locate(w, HasPriority(p), m);
    forall q: int ensures Filter(RemoveAt(s, k), HasPriority(q)) == Filter(RemoveAt(w, i), HasPriority(q)) {
      if q != p {
        OtherPriority(s, k, q);
        OtherPriority(w, i, q);
        assert Filter(w, HasPriority(q)) == Filter(s, HasPriority(q));
      }
    }
  }

  lemma OtherPriority(s: seq<Request>, i: nat, q: int)
    requires i < |s| && s[i].priority != q
    ensures Filter(RemoveAt(s, i), HasPriority(q)) == Filter(s, HasPriority(q))
  {
    FilterSplit(s, i, HasPriority(q));
    FilterRemoved(s, i, HasPriority(q));
  }

  /** A request waiting before `i` with the priority of `s[k]` stands before `k` in the sorted list. */
  lemma StandsBefore(s: seq<Request>, w: seq<Request>, k: nat, i: nat, m: nat)
    requires k < |s| && m < i < |w| && w[m].priority == s[k].priority
    requires Filter(w[..i], HasPriority(s[k].priority)) == Filter(s[..k], HasPriority(s[k].priority))
    ensures w[m] in s[..k]
  {
    InFilter(w[..i], m, HasPriority(s[k].priority));
    FromFilter(s[..k], w[m], HasPriority(s[k].priority));
  }

  lemma EnqueueKeeps(maxSize: nat, s: seq<Request>, w: seq<Request>, r: Request) returns (w': seq<Request>)
    requires StableSortOf(s, w) && |s| <= maxSize
    ensures ArrivalNext(maxSize, w, Enqueue(r), Step(maxSize, s, Enqueue(r)).1, w')
    ensures StableSortOf(Step(maxSize, s, Enqueue(r)).0, w')
  {
    w' := if |w| < maxSize then w + [r] else w;
    if |s| < maxSize {
      InsertSorted(s, r);
      forall p: int ensures Filter(Insert(s, r), HasPriority(p)) == Filter(w + [r], HasPriority(p)) {
        InsertFilter(s, r, p);
        FilterConcat(w, [r], HasPriority(p));
        FilterOne(r, HasPriority(p));
        assert Filter(s, HasPriority(p)) == Filter(w, HasPriority(p));
      }
    }
  }

  lemma InsertSorted(s: seq<Request>, r: Request)
    requires Descending(s)
    ensures Descending(Insert(s, r)) && |Insert(s, r)| == |s| + 1
  {
    var i := InsertIndex(s, r.priority);
    var t := Insert(s, r);
    assert forall k | 0 <= k < |t| :: t[k] == if k < i then s[k] else if k == i then r else s[k - 1];
  }

  lemma InsertFilter(s: seq<Request>, r: Request, p: int)
    requires Descending(s)
    ensures Filter(Insert(s, r), HasPriority(p)) == Filter(s, HasPriority(p)) + if r.priority == p then [r] else []
  {
    hide Filter;
    var i := InsertIndex(s, r.priority);
    FilterAround(s[..i], r, s[i..], HasPriority(p));
    FilterConcat(s[..i], s[i..], HasPriority(p));
    assert s == s[..i] + s[i..];
    if r.priority == p {
      NoneBeyond(s, p);
    }
  }

  /** Past the place of insertion every priority is lower. */
  lemma NoneBeyond(s: seq<Request>, p: int)
    requires Descending(s)
    ensures Filter(s[InsertIndex(s, p)..], HasPriority(p)) == []
  {
    hide Filter;
    NoneLeft(s[InsertIndex(s, p)..], p);
  }

  lemma {:induction false} NoneLeft(s: seq<Request>, p: int)
    requires forall k | 0 <= k < |s| :: s[k].priority < p
    ensures Filter(s, HasPriority(p)) == []
    decreases |s|
  {
    if s != [] {
      NoneLeft(s[..|s| - 1], p);
    }
  }

  lemma DequeueKeeps(maxSize: nat, s: seq<Request>, w: seq<Request>) returns (w': seq<Request>)
    requires StableSortOf(s, w)
    ensures ArrivalNext(maxSize, w, Dequeue, Step(maxSize, s, Dequeue).1, w')
    ensures StableSortOf(Step(maxSize, s, Dequeue).0, w')
  {
    if s == [] {
      w' := w;
    } else {
      var i := FindWaiting(s, w, 0);
      forall m: nat | m < |w| && m != i
        ensures w[m].priority < w[i].priority || (w[m].priority == w[i].priority && i < m)
      {
        OnBothSides(w, s, w[m]);
        if w[m].priority == w[i].priority && m < i {
          StandsBefore(s, w, 0, i, m);
        }
      }
      assert NextUp(w, i);
      assert s[1..] == RemoveAt(s, 0);
      w' := RemoveAt(w, i);
    }
  }

  lemma CancelKeeps(maxSize: nat, s: seq<Request>, w: seq<Request>, id: string, pending: set<Request>)
    returns (w': seq<Request>)
    requires StableSortOf(s, w)
    ensures ArrivalNext(maxSize, w, Cancel(id, pending), Step(maxSize, s, Cancel(id, pending)).1, w')
    ensures StableSortOf(Step(maxSize, s, Cancel(id, pending)).0, w')
  {
    var k := MatchIndex(s, id, pending);
    forall m | 0 <= m < |w| ensures w[m] in s {
      OnBothSides(w, s, w[m]);
    }
    if k == |s| {
      w' := w;
    } else {
      var i := FindWaiting(s, w, k);
      forall m: nat | m < |w| && m != i && w[m].id == id && w[m] in pending
        ensures w[m].priority < w[i].priority || (w[m].priority == w[i].priority && i < m)
      {
        if w[m].priority == w[i].priority && m < i {
          StandsBefore(s, w, k, i, m);
        }
      }
      assert FirstMatch(w, id, pending, i);
      assert w[i] in w;
      w' := RemoveAt(w, i);
    }
  }

  lemma StepKeeps(maxSize: nat, s: seq<Request>, w: seq<Request>, e: Event) returns (w': seq<Request>)
    requires StableSortOf(s, w) && |s| <= maxSize
    ensures ArrivalNext(maxSize, w, e, Step(maxSize, s, e).1, w')
    ensures StableSortOf(Step(maxSize, s, e).0, w') && |Step(maxSize, s, e).0| <= maxSize
  {
    match e
    case Enqueue(r) =>
      w' := EnqueueKeeps(maxSize, s, w, r);
    case Dequeue =>
      w' := DequeueKeeps(maxSize, s, w);
    case Cancel(id, pending) =>
      w' := CancelKeeps(maxSize, s, w, id, pending);
  }

  /** After any run the list is the stable sort of what is waiting, within its bound, and every
      reply is the one the arrival order calls for. */
  lemma {:induction false} RunKeeps(maxSize: nat, s: seq<Request>, w: seq<Request>, evs: seq<Event>)
    returns (ws: seq<seq<Request>>)
    requires StableSortOf(s, w) && |s| <= maxSize
    ensures |ws| == |evs| + 1 && |Run(maxSize, s, evs).1| == |evs| && ws[0] == w
    ensures forall n | 0 <= n < |evs| :: ArrivalNext(maxSize, ws[n], evs[n], Run(maxSize, s, evs).1[n], ws[n + 1])
    ensures StableSortOf(Run(maxSize, s, evs).0, ws[|evs|]) && |Run(maxSize, s, evs).0| <= maxSize
    decreases |evs|
  {
    hide ArrivalNext, StableSortOf, Step;
    if evs == [] {
      ws := [w];
    } else {
      var s' := Step(maxSize, s, evs[0]).0;
      var w' := StepKeeps(maxSize, s, w, evs[0]);
      var rest := RunKeeps(maxSize, s', w', evs[1..]);
      ws := [w] + rest;
      forall n | 0 <= n < |evs|
        ensures ArrivalNext(maxSize, ws[n], evs[n], Run(maxSize, s, evs).1[n], ws[n + 1])
      {
        if n > 0 {
          assert ArrivalNext(maxSize, rest[n - 1], evs[1..][n - 1], Run(maxSize, s', evs[1..]).1[n - 1], rest[n]);
        }
      }
    }
  }
}
