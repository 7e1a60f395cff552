/** The bounded request queue: a slice kept sorted by insertion, against a stable sort of the
    requests still waiting. */
module StableQueue {
  import opened Common

  datatype Status = Pending | Running | Complete | Failed | Timeout

  class Request {
    const id: string
    const priority: int
    var status: Status
    var createdAt: int

    constructor (id: string, priority: int)
      ensures this.id == id && this.priority == priority
    {
      this.id, this.priority := id, priority;
      status, createdAt := Pending, 0;
    }
  }

  // ---------------------------------------------------------------- the sorted list

  /** Index of the first request with a lower priority, or the length. */
  function InsertIndex(s: seq<Request>, priority: int): (i: nat)
    ensures i <= |s|
    ensures forall k | 0 <= k < i :: s[k].priority >= priority
    ensures i < |s| ==> s[i].priority < priority
  {
    if s == [] || s[0].priority < priority then 0 else 1 + InsertIndex(s[1..], priority)
  }

  function Insert(s: seq<Request>, r: Request): seq<Request> {
    var i := InsertIndex(s, r.priority);
    s[..i] + [r] + s[i..]
  }

  /** Index of the first request with this ID among the pending ones, or the length. */
  function MatchIndex(s: seq<Request>, id: string, pending: set<Request>): (i: nat)
    ensures i <= |s|
    ensures forall k | 0 <= k < i :: !(s[k].id == id && s[k] in pending)
    ensures i < |s| ==> s[i].id == id && s[i] in pending
  {
    if s == [] || (s[0].id == id && s[0] in pending) then 0 else 1 + MatchIndex(s[1..], id, pending)
  }

  lemma InsertIndexIs(s: seq<Request>, priority: int, i: nat)
    requires i <= |s| && (forall k | 0 <= k < i :: s[k].priority >= priority)
    requires i < |s| ==> s[i].priority < priority
    ensures i == InsertIndex(s, priority)
  {
  }

  lemma MatchIndexIs(s: seq<Request>, id: string, pending: set<Request>, i: nat)
    requires i <= |s| && (forall k | 0 <= k < i :: !(s[k].id == id && s[k] in pending))
    requires i < |s| ==> s[i].id == id && s[i] in pending
    ensures i == MatchIndex(s, id, pending)
  {
  }

  // `pending` are the requests whose status is pending when Cancel runs; their owners may
  // have moved a queued request on.
  datatype Event = Enqueue(r: Request) | Dequeue | Cancel(id: string, pending: set<Request>)

  datatype Reply = Accepted(ok: bool) | Taken(r: Option<Request>) | Cancelled(r: Option<Request>)

  function Step(maxSize: nat, s: seq<Request>, e: Event): (seq<Request>, Reply) {
    match e
    case Enqueue(r) =>
      if |s| >= maxSize then (s, Accepted(false)) else (Insert(s, r), Accepted(true))
    case Dequeue =>
      if s == [] then (s, Taken(None)) else (s[1..], Taken(Some(s[0])))
    case Cancel(id, pending) =>
      var i := MatchIndex(s, id, pending);
      if i < |s| then (RemoveAt(s, i), Cancelled(Some(s[i]))) else (s, Cancelled(None))
  }

  function Run(maxSize: nat, s: seq<Request>, evs: seq<Event>): (seq<Request>, seq<Reply>)
    decreases |evs|
  {
    if evs == [] then (s, [])
    else
      var (s', r) := Step(maxSize, s, evs[0]);
      var (s'', rs) := Run(maxSize, s', evs[1..]);
      (s'', [r] + rs)
  }

  // ---------------------------------------------------------------- the slice

  class Queue {
    // The slice is buf[lo..hi]; buf is its backing array.
    var buf: array<Request?>
    var lo: nat
    var hi: nat
    const maxSize: nat

    ghost predicate Valid()
      reads this, buf
    {
      && lo <= hi <= buf.Length
      && hi - lo <= maxSize
      && forall k | lo <= k < hi :: buf[k] != null
    }

    ghost function Items(): seq<Request>
      reads this, buf
      requires Valid()
    {
      buf[lo..hi]
    }

    constructor (maxSize: nat)
      ensures Valid() && fresh(buf) && Items() == [] && this.maxSize == maxSize
    {
      this.maxSize := maxSize;
      buf := new Request?[maxSize](_ => null);
      lo, hi := 0, 0;
    }

    /** append(items, nil): in place while the backing array has room, else into a larger one. */
    method AppendNil()
      requires lo <= hi <= buf.Length
      modifies this, buf
      ensures lo <= hi <= buf.Length && (buf == old(buf) || fresh(buf))
      ensures buf[lo..hi] == old(buf[lo..hi]) + [null]
    {
      if hi == buf.Length {
        Reallocate(2 * (hi - lo) + 1);
      }
      buf[hi] := null;
      hi := hi + 1;
    }

    method Reallocate(capacity: nat)
      requires lo <= hi <= buf.Length && hi - lo < capacity
      modifies this
      ensures lo <= hi < buf.Length && fresh(buf) && buf[lo..hi] == old(buf[lo..hi])
    {
      var n := hi - lo;
      var larger := new Request?[capacity](_ => null);
      for k := 0 to n
        invariant unchanged(this) && unchanged(buf)
        invariant larger[..k] == buf[lo..lo + k]
      {
        larger[k] := buf[lo + k];
      }
      buf, lo, hi := larger, 0, n;
    }

    /** copy(items[i+1:], items[i:]): the overlapping move of a slice by one place. */
    method ShiftRight(i: nat)
      requires lo <= hi <= buf.Length && i < hi - lo
      modifies buf
      ensures buf[lo..hi] == MovedUp(old(buf[lo..hi]), i)
    {
      var k := hi - 1;
      while k > lo + i
        invariant lo + i <= k < hi
        invariant forall m | lo <= m <= k :: buf[m] == old(buf[m])
        invariant forall m | k < m < hi :: buf[m] == old(buf[m - 1])
      {
        buf[k] := buf[k - 1];
        k := k - 1;
      }
      MovedUpIs(old(buf[lo..hi]), i, buf[lo..hi]);
    }

    /** append, copy and the write at `i`: the insertion at `i`. */
    method InsertAt(i: nat, req: Request)
      requires Valid() && i <= hi - lo < maxSize
      modifies this, buf
      ensures Valid() && (buf == old(buf) || fresh(buf))
      ensures Items() == old(Items())[..i] + [req] + old(Items())[i..]
    {
      hide MovedUp;
      ghost var s := Items();
      AppendNil();
      ghost var longer := buf[lo..hi];
      assert longer == s + [null] && |longer| == |s| + 1;
      ShiftAndWrite(i, req);
      MadeRoom(s, i, req);
      ghost var t := s[..i] + [req] + s[i..];
      assert buf[lo..hi] == t;
      forall k | lo <= k < hi ensures buf[k] != null {
        assert buf[k] == t[k - lo];
      }
    }

    method ShiftAndWrite(i: nat, req: Request)
      requires lo <= hi <= buf.Length && i < hi - lo
      modifies buf
      ensures buf[lo..hi] == MovedUp(old(buf[lo..hi]), i)[i := req]
    {
      ShiftRight(i);
      buf[lo + i] := req;
    }

    /** The scan for the first queued request of a lower priority. */
    method FindInsertIndex(priority: int) returns (insertIdx: nat)
      requires Valid()
      ensures insertIdx == InsertIndex(Items(), priority)
    {
      ghost var s := Items();
      insertIdx := hi - lo;
      var i := 0;
      while i < hi - lo
        invariant i <= hi - lo == insertIdx
        invariant forall k | 0 <= k < i :: s[k].priority >= priority
      {
        var item := buf[lo + i];
        if item.priority < priority {
          InsertIndexIs(s, priority, i);
          return i;
        }
        i := i + 1;
      }
      InsertIndexIs(s, priority, i);
    }

    method Enqueue(req: Request, now: int) returns (ok: bool)
      requires Valid()
      modifies this, buf, req
      ensures Valid() && (buf == old(buf) || fresh(buf))
      ensures (Items(), Accepted(ok)) == Step(maxSize, old(Items()), Event.Enqueue(req))
      ensures if ok then req.status == Pending && req.createdAt == now
              else unchanged(this) && unchanged(req) && buf[..] == old(buf[..])
    {
      if hi - lo >= maxSize {
        return false;
      }
      req.status := Pending;
      req.createdAt := now;

      var insertIdx := FindInsertIndex(req.priority);
      InsertAt(insertIdx, req);
      ok := true;
    }

    method Dequeue() returns (req: Request?)
      requires Valid()
      modifies this
      ensures Valid() && buf == old(buf)
      ensures (Items(), Taken(if req == null then None else Some(req))) == Step(maxSize, old(Items()), Event.Dequeue)
    {
      if hi - lo == 0 {
        return null;
      }
      req := buf[lo];
      lo := lo + 1;
    }

    method Peek() returns (req: Request?)
      requires Valid()
      ensures Taken(if req == null then None else Some(req)) == Step(maxSize, Items(), Event.Dequeue).1
    {
      if hi - lo == 0 {
        return null;
      }
      req := buf[lo];
    }

    ghost function PendingRequests(): set<Request>
      reads this, buf, if Valid() then set r | r in Items() else {}
      requires Valid()
    {
      set r | r in Items() && r.status == Pending
    }

    /** append(items[:i], items[i+1:]...) closes the gap in place. */
    method Cancel(id: string) returns (ok: bool)
      requires Valid()
      modifies this, buf, set r | r in Items()
      ensures Valid() && buf == old(buf)
      ensures Items() == Step(maxSize, old(Items()), Event.Cancel(id, old(PendingRequests()))).0
      ensures var r := Step(maxSize, old(Items()), Event.Cancel(id, old(PendingRequests()))).1;
              ok == r.r.Some? && forall q | q in old(Items()) ::
                q.status == if r.r == Some(q) then Failed else old(q.status)
      ensures ok <==> exists q :: q in old(Items()) && q.id == id && old(q.status) == Pending
    {
      hide RemoveAt, MatchIndex;
      ghost var s := Items();
      var i := 0;
      while i < hi - lo
        invariant i <= hi - lo
        invariant forall k | 0 <= k < i :: !(s[k].id == id && s[k] in PendingRequests())
      {
        var req := buf[lo + i];
        assert req == s[i];
        if req.id == id && req.status == Pending {
          MatchIndexIs(s, id, PendingRequests(), i);
          CloseGap(i);
          req.status := Failed;
          return true;
        }
        i := i + 1;
      }
      MatchIndexIs(s, id, PendingRequests(), i);
      return false;
    }

    method CloseGap(i: nat)
      requires Valid() && i < hi - lo
      modifies this, buf
      ensures Valid() && buf == old(buf)
      ensures Items() == RemoveAt(old(Items()), i)
    {
      ghost var s := buf[lo..hi];
      var k := lo + i;
      while k < hi - 1
        invariant lo + i <= k < hi && unchanged(this)
        invariant forall m | lo <= m < lo + i :: buf[m] == old(buf[m])
        invariant forall m | lo + i <= m < k :: buf[m] == old(buf[m + 1])
        invariant forall m | k <= m < hi :: buf[m] == old(buf[m])
      {
        buf[k] := buf[k + 1];
        k := k + 1;
      }
      hi := hi - 1;
      GapClosed(s, i, buf[lo..hi]);
    }
  }

  /** The elements from `i` on moved up by one place, over the last one. */
  function MovedUp(s: seq<Request?>, i: nat): seq<Request?>
    requires i < |s|
  {
    s[..i + 1] + s[i..|s| - 1]
  }

  lemma MovedUpIs(s: seq<Request?>, i: nat, t: seq<Request?>)
    requires |t| == |s| && i < |s|
    requires forall m | 0 <= m < |t| :: t[m] == s[if m <= i then m else m - 1]
    ensures t == MovedUp(s, i)
  {
    assert forall m | 0 <= m < |t| :: t[m] == MovedUp(s, i)[m];
  }

  lemma MadeRoom(s: seq<Request?>, i: nat, r: Request)
    requires i <= |s|
    ensures MovedUp(s + [null], i)[i := r] == s[..i] + [r] + s[i..]
  {
    var t := MovedUp(s + [null], i)[i := r];
    var u := s[..i] + [r] + s[i..];
    assert forall m | 0 <= m < |t| :: t[m] == u[m];
  }

  lemma GapClosed(s: seq<Request?>, i: nat, t: seq<Request?>)
    requires |s| == |t| + 1 && i < |s|
    requires forall m | 0 <= m < |t| :: t[m] == s[if m < i then m else m + 1]
    ensures t == RemoveAt(s, i)
  {
    assert forall m | 0 <= m < |t| :: t[m] == RemoveAt(s, i)[m];
  }
}
