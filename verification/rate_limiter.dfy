/** The per-client fixed-window rate limiter with its background sweep. */
module RateLimiter {
  import opened Common

  datatype Bucket = Bucket(count: int, resetAt: int)
  datatype Limits = Limits(rate: int, window: int)
  type Clients = map<string, Bucket>

  // Allow reads the clock at `now`, and at `later` for the reset time of a new bucket.
  datatype Event =
    | Call(id: string, now: int, later: int)
    | Sweep(now: int)
  {
    function End(): int {
      if Call? then later else now
    }
  }

  predicate Expired(b: Bucket, now: int) {
    now > b.resetAt
  }

  predicate Admits(l: Limits, clients: Clients, id: string, now: int) {
    id !in clients || Expired(clients[id], now) || clients[id].count < l.rate
  }

  function Step(l: Limits, clients: Clients, e: Event): Clients {
    match e
    case Call(id, now, later) =>
      if id !in clients || Expired(clients[id], now) then clients[id := Bucket(1, later + l.window)]
      else if clients[id].count < l.rate then clients[id := Bucket(clients[id].count + 1, clients[id].resetAt)]
      else clients
    case Sweep(now) => map id | id in clients && !Expired(clients[id], now) :: clients[id]
  }

  class RateLimiter {
    var clients: Clients
    const limits: Limits

    constructor (rate: int, window: int)
      ensures clients == map[] && limits == Limits(rate, window)
    {
      clients, limits := map[], Limits(rate, window);
    }

    method Allow(id: string, now: int, later: int) returns (ok: bool)
      modifies this
      ensures ok == Admits(limits, old(clients), id, now)
      ensures clients == Step(limits, old(clients), Call(id, now, later))
    {
      if id !in clients || now > clients[id].resetAt {
        clients := clients[id := Bucket(1, later + limits.window)];
        return true;
      }
      var bucket := clients[id];
      if bucket.count >= limits.rate {
        return false;
      }
      clients := clients[id := bucket.(count := bucket.count + 1)];
      return true;
    }

    /** One tick of the cleanup loop: visits the entries in any order and deletes the expired ones. */
    method Cleanup(now: int)
      modifies this
      ensures clients == Step(limits, old(clients), Sweep(now))
      ensures forall id :: id in clients <==> id in old(clients) && now <= old(clients)[id].resetAt
      ensures forall id | id in clients :: clients[id] == old(clients)[id]
    {
      var pending := clients.Keys;
      while pending != {}
        invariant pending <= clients.Keys <= old(clients).Keys
        invariant forall id | id in old(clients) && id !in clients :: Expired(old(clients)[id], now)
        invariant forall id | id in clients :: clients[id] == old(clients)[id]
        invariant forall id | id in clients && id !in pending :: !Expired(clients[id], now)
        decreases pending
      {
        var id :| id in pending;
        pending := pending - {id};
        if now > clients[id].resetAt {
          clients := clients - {id};
        }
      }
    }
  }

  // ---------------------------------------------------------------- runs

  /** The clock never goes back. */
  predicate Timed(evs: seq<Event>) {
    && (forall i | 0 <= i < |evs| :: evs[i].now <= evs[i].End())
    && (forall i, k | 0 <= i < k < |evs| :: evs[i].End() <= evs[k].now)
  }

  function After(l: Limits, evs: seq<Event>): Clients {
    if evs == [] then map[] else Step(l, After(l, evs[..|evs| - 1]), evs[|evs| - 1])
  }

  /** What Allow answered, call by call. */
  function Answers(l: Limits, evs: seq<Event>): seq<bool> {
    if evs == [] then []
    else
      var prefix, e := evs[..|evs| - 1], evs[|evs| - 1];
      Answers(l, prefix) + if e.Call? then [Admits(l, After(l, prefix), e.id, e.now)] else []
  }

  /** Requests of `id` let through during the closed interval [from, to]. */
  function Grants(l: Limits, evs: seq<Event>, id: string, from: int, to: int): nat {
    if evs == [] then 0
    else
      var prefix, e := evs[..|evs| - 1], evs[|evs| - 1];
      Grants(l, prefix, id, from, to) + if GrantIn(l, prefix, e, id, from, to) then 1 else 0
  }

  /** Requests of `id` let through during the closed interval of one window from `a` on. */
  function WindowGrants(l: Limits, evs: seq<Event>, id: string, a: int): nat {
    Grants(l, evs, id, a, a + l.window)
  }

  lemma Append(l: Limits, evs: seq<Event>, e: Event, id: string, from: int, to: int)
    ensures After(l, evs + [e]) == Step(l, After(l, evs), e)
    ensures Grants(l, evs + [e], id, from, to)
            == Grants(l, evs, id, from, to) + if GrantIn(l, evs, e, id, from, to) then 1 else 0
  {
    assert (evs + [e])[..|evs + [e]| - 1] == evs;
  }

  predicate GrantIn(l: Limits, prefix: seq<Event>, e: Event, id: string, from: int, to: int) {
    e.Call? && e.id == id && Admits(l, After(l, prefix), id, e.now) && from <= e.later <= to
  }

  predicate EndedBy(evs: seq<Event>, t: int) {
    evs != [] ==> evs[|evs| - 1].End() <= t
  }

  lemma TimedPrefix(evs: seq<Event>)
    requires Timed(evs) && evs != []
    ensures Timed(evs[..|evs| - 1]) && EndedBy(evs[..|evs| - 1], evs[|evs| - 1].now)
  {
  }

  // ---------------------------------------------------------------- the sweep is unobservable

  function CallsOnly(evs: seq<Event>): seq<Event> {
    if evs == [] then []
    else
      var prefix, e := evs[..|evs| - 1], evs[|evs| - 1];
      CallsOnly(prefix) + if e.Call? then [e] else []
  }

  /** The swept table lacks only buckets that have expired by `t`. */
  ghost predicate Similar(swept: Clients, kept: Clients, t: int) {
    && (forall id | id in swept :: id in kept && swept[id] == kept[id])
    && (forall id | id in kept && id !in swept :: Expired(kept[id], t))
  }

  lemma SimilarStep(l: Limits, swept: Clients, kept: Clients, e: Event, t: int)
    requires Similar(swept, kept, e.now) && e.now <= t
    ensures e.Call? ==> Similar(Step(l, swept, e), Step(l, kept, e), t)
    ensures e.Call? ==> Admits(l, swept, e.id, e.now) == Admits(l, kept, e.id, e.now)
    ensures e.Sweep? ==> Similar(Step(l, swept, e), kept, t)
  {
  }

  lemma CallsOnlyAppend(evs: seq<Event>)
    requires evs != []
    ensures var prefix, e := evs[..|evs| - 1], evs[|evs| - 1];
            CallsOnly(evs) == if e.Call? then CallsOnly(prefix) + [e] else CallsOnly(prefix)
  {
  }

  lemma {:induction false} Bisimulation(l: Limits, evs: seq<Event>, t: int)
    requires Timed(evs) && EndedBy(evs, t)
    ensures Similar(After(l, evs), After(l, CallsOnly(evs)), t)
    ensures Answers(l, evs) == Answers(l, CallsOnly(evs))
    decreases |evs|
  {
    if evs != [] {
      var prefix, e := evs[..|evs| - 1], evs[|evs| - 1];
      TimedPrefix(evs);
      Bisimulation(l, prefix, e.now);
      SimilarStep(l, After(l, prefix), After(l, CallsOnly(prefix)), e, t);
      CallsOnlyAppend(evs);
      AnswersAppend(l, CallsOnly(prefix), e);
    }
  }

  lemma AnswersAppend(l: Limits, evs: seq<Event>, e: Event)
    ensures After(l, evs + [e]) == Step(l, After(l, evs), e)
    ensures Answers(l, evs + [e])
            == Answers(l, evs) + if e.Call? then [Admits(l, After(l, evs), e.id, e.now)] else []
  {
    assert (evs + [e])[..|evs + [e]| - 1] == evs;
  }

  /** A limiter swept at arbitrary times answers exactly like one that is never swept. */
  lemma CleanupUnobservable(l: Limits, evs: seq<Event>)
    requires Timed(evs)
    ensures Answers(l, evs) == Answers(l, CallsOnly(evs))
  {
    Bisimulation(l, evs, if evs == [] then 0 else evs[|evs| - 1].End());
  }

  /** A sweep leaves only clients with a request let through in the window before it, so the table does
      not grow with clients long gone. */
  lemma SweepForgets(l: Limits, evs: seq<Event>, now: int, id: string)
    requires Timed(evs) && EndedBy(evs, now) && id in After(l, evs + [Sweep(now)])
    ensures Grants(l, evs, id, now - l.window, now) >= 1
  {
    Append(l, evs, Sweep(now), id, now - l.window, now);
    var from := After(l, evs)[id].resetAt - l.window;
    CountsAreGrants(l, evs, id, now);
    GrantsWider(l, evs, id, from, now - l.window, now, now);
  }

  // ---------------------------------------------------------------- sliding windows

  /** What is known of `id`'s bucket at time `t` when it was let through `g` times in [a, a+window]. */
  ghost predicate WindowInv(l: Limits, clients: Clients, id: string, t: int, g: int, a: int) {
    var m := Max(l.rate, 1);
    && g <= 2 * m - 1
    && (t < a ==> g == 0)
    && (id in clients ==> 1 <= clients[id].count <= m)
    && (t <= a + l.window ==>
          // all of them from a bucket opened before the interval, or one bucket opened inside it
          || (g <= m - 1 && (id in clients ==> g <= clients[id].count - 1))
          || (id in clients && clients[id].resetAt >= a + l.window && g <= m - 1 + clients[id].count))
  }

  lemma WindowStep(l: Limits, clients: Clients, id: string, t: int, g: int, a: int, e: Event)
    requires WindowInv(l, clients, id, t, g, a) && t <= e.now <= e.End()
    ensures WindowInv(l, Step(l, clients, e), id, e.End(),
                      g + (if e.Call? && e.id == id && Admits(l, clients, id, e.now)
                              && a <= e.later <= a + l.window then 1 else 0),
                      a)
  {
  }

  lemma {:induction false} WindowHolds(l: Limits, evs: seq<Event>, id: string, a: int, t0: int)
    requires Timed(evs) && (evs != [] ==> t0 <= evs[0].now) && t0 < a
    ensures WindowInv(l, After(l, evs), id, if evs == [] then t0 else evs[|evs| - 1].End(),
                      Grants(l, evs, id, a, a + l.window), a)
    decreases |evs|
  {
    if evs != [] {
      var prefix, e := evs[..|evs| - 1], evs[|evs| - 1];
      TimedPrefix(evs);
      WindowHolds(l, prefix, id, a, t0);
      WindowStep(l, After(l, prefix), id, if prefix == [] then t0 else prefix[|prefix| - 1].End(),
                 Grants(l, prefix, id, a, a + l.window), a, e);
    }
  }

  /** In every closed interval as long as the window, at most 2*max(rate,1)-1 requests of a client
      get through, with sweeps interleaved anywhere. */
  lemma SlidingWindowBound(l: Limits, evs: seq<Event>, id: string, a: int)
    requires Timed(evs)
    ensures WindowGrants(l, evs, id, a) <= 2 * Max(l.rate, 1) - 1
  {
    var t0 := if evs == [] || a <= evs[0].now then a - 1 else evs[0].now;
    WindowHolds(l, evs, id, a, t0);
  }

  /** The run followed by `n` calls of one client at one instant. */
  function Burst(evs: seq<Event>, id: string, t: int, n: nat): seq<Event> {
    if n == 0 then evs else Burst(evs, id, t, n - 1) + [Call(id, t, t)]
  }

  lemma EndedLater(evs: seq<Event>, t: int, t': int)
    requires EndedBy(evs, t) && t <= t'
    ensures EndedBy(evs, t')
  {
  }

  lemma CallTimed(evs: seq<Event>, id: string, t: int)
    requires Timed(evs) && EndedBy(evs, t)
    ensures Timed(evs + [Call(id, t, t)]) && EndedBy(evs + [Call(id, t, t)], t)
  {
  }

  lemma {:induction false} BurstTimed(evs: seq<Event>, id: string, t: int, n: nat)
    requires Timed(evs) && EndedBy(evs, t)
    ensures Timed(Burst(evs, id, t, n)) && EndedBy(Burst(evs, id, t, n), t)
  {
    if n > 0 {
      BurstTimed(evs, id, t, n - 1);
      CallTimed(Burst(evs, id, t, n - 1), id, t);
    }
  }

  ghost predicate BucketIs(l: Limits, evs: seq<Event>, id: string, b: Bucket) {
    id in After(l, evs) && After(l, evs)[id] == b
  }

  /** A call that finds no live bucket opens a new one. */
  lemma Opens(l: Limits, evs: seq<Event>, id: string, t: int, from: int, to: int)
    requires id !in After(l, evs) || After(l, evs)[id].resetAt < t
    ensures BucketIs(l, evs + [Call(id, t, t)], id, Bucket(1, t + l.window))
    ensures Grants(l, evs + [Call(id, t, t)], id, from, to)
            == Grants(l, evs, id, from, to) + if from <= t <= to then 1 else 0
  {
    Append(l, evs, Call(id, t, t), id, from, to);
  }

  lemma FillsUp(l: Limits, evs: seq<Event>, id: string, t: int, b: Bucket, from: int, to: int)
    requires BucketIs(l, evs, id, b) && t <= b.resetAt && b.count < l.rate && from <= t <= to
    ensures BucketIs(l, evs + [Call(id, t, t)], id, Bucket(b.count + 1, b.resetAt))
    ensures Grants(l, evs + [Call(id, t, t)], id, from, to) == Grants(l, evs, id, from, to) + 1
  {
    Append(l, evs, Call(id, t, t), id, from, to);
  }

  /** A burst into a live bucket with room for it gets through entirely. */
  lemma {:induction false} BurstGranted(l: Limits, evs: seq<Event>, id: string, t: int, n: nat, b: Bucket,
                                        from: int, to: int)
    requires BucketIs(l, evs, id, b) && t <= b.resetAt && b.count + n <= l.rate && from <= t <= to
    ensures BucketIs(l, Burst(evs, id, t, n), id, Bucket(b.count + n, b.resetAt))
    ensures Grants(l, Burst(evs, id, t, n), id, from, to) == Grants(l, evs, id, from, to) + n
  {
    hide After, Grants;
    if n > 0 {
      BurstGranted(l, evs, id, t, n - 1, b, from, to);
      FillsUp(l, Burst(evs, id, t, n - 1), id, t, Bucket(b.count + n - 1, b.resetAt), from, to);
    }
  }

  /** A call at `t` opens a bucket and a burst at `t'` fills it up to the rate. */
  function OpenAndFill(l: Limits, evs: seq<Event>, id: string, t: int, t': int): seq<Event>
    requires l.rate >= 1
  {
    Burst(evs + [Call(id, t, t)], id, t', l.rate - 1)
  }

  lemma OpenAndFillTimed(l: Limits, evs: seq<Event>, id: string, t: int, t': int)
    requires l.rate >= 1 && Timed(evs) && EndedBy(evs, t) && t <= t'
    ensures Timed(OpenAndFill(l, evs, id, t, t')) && EndedBy(OpenAndFill(l, evs, id, t, t'), t')
  {
    CallTimed(evs, id, t);
    EndedLater(evs + [Call(id, t, t)], t, t');
    BurstTimed(evs + [Call(id, t, t)], id, t', l.rate - 1);
  }

  lemma OpenAndFillGrants(l: Limits, evs: seq<Event>, id: string, t: int, t': int, from: int, to: int)
    requires l.rate >= 1 && t <= t' <= t + l.window && from <= t' <= to
    requires id !in After(l, evs) || After(l, evs)[id].resetAt < t
    ensures BucketIs(l, OpenAndFill(l, evs, id, t, t'), id, Bucket(l.rate, t + l.window))
    ensures Grants(l, OpenAndFill(l, evs, id, t, t'), id, from, to)
            == Grants(l, evs, id, from, to) + l.rate - if from <= t then 0 else 1
  {
    hide After, Grants, Burst;
    Opens(l, evs, id, t, from, to);
    BurstGranted(l, evs + [Call(id, t, t)], id, t', l.rate - 1, Bucket(1, t + l.window), from, to);
  }

  /** One call, the rest of the bucket as the window closes, and a full bucket right after. */
  function Straddle(l: Limits, id: string): seq<Event>
    requires l.rate >= 1
  {
    OpenAndFill(l, OpenAndFill(l, [], id, 0, l.window), id, l.window + 1, l.window + 1)
  }

  lemma StraddleTimed(l: Limits, id: string)
    requires l.rate >= 1 && l.window >= 1
    ensures Timed(Straddle(l, id))
  {
    hide OpenAndFill;
    var first := OpenAndFill(l, [], id, 0, l.window);
    OpenAndFillTimed(l, [], id, 0, l.window);
    EndedLater(first, l.window, l.window + 1);
    OpenAndFillTimed(l, first, id, l.window + 1, l.window + 1);
  }

  /** The bound is reached. */
  lemma BoundReached(l: Limits, id: string)
    requires l.rate >= 1 && l.window >= 1
    ensures WindowGrants(l, Straddle(l, id), id, 1) == 2 * l.rate - 1
  {
    assert id !in After(l, []) && Grants(l, [], id, 1, 1 + l.window) == 0;
    hide After, Grants, OpenAndFill;
    var first := OpenAndFill(l, [], id, 0, l.window);
    OpenAndFillGrants(l, [], id, 0, l.window, 1, 1 + l.window);
    OpenAndFillGrants(l, first, id, l.window + 1, l.window + 1, 1, 1 + l.window);
  }

  /** "At most rate requests per window", read for every interval of that length, is what the
      limiter guarantees exactly when the rate is one: a lower rate still lets a first request
      through, a higher one is exceeded across two buckets. */
  lemma SlidingPromiseIff(l: Limits)
    requires l.window >= 1
    ensures (forall evs, id, a | Timed(evs) :: WindowGrants(l, evs, id, a) <= l.rate) <==> l.rate == 1
  {
    if l.rate == 1 {
      forall evs, id, a | Timed(evs) ensures WindowGrants(l, evs, id, a) <= l.rate {
        SlidingWindowBound(l, evs, id, a);
      }
    } else if l.rate < 1 {
      FirstAlwaysGranted(l, "c");
      assert WindowGrants(l, [Call("c", 0, 0)], "c", 0) > l.rate;
    } else {
      StraddleTimed(l, "c");
      BoundReached(l, "c");
      assert WindowGrants(l, Straddle(l, "c"), "c", 1) > l.rate;
    }
  }

  /** Whatever the rate, a client's first request gets through. */
  lemma FirstAlwaysGranted(l: Limits, id: string)
    requires l.window >= 0
    ensures Timed([Call(id, 0, 0)]) && WindowGrants(l, [Call(id, 0, 0)], id, 0) == 1
  {
    Append(l, [], Call(id, 0, 0), id, 0, l.window);
    assert [] + [Call(id, 0, 0)] == [Call(id, 0, 0)];
  }

  // ---------------------------------------------------------------- refusals

  /** Every request counted in a bucket was let through during that bucket's window. */
  lemma {:induction false} CountsAreGrants(l: Limits, evs: seq<Event>, id: string, t: int)
    requires Timed(evs) && EndedBy(evs, t) && id in After(l, evs)
    ensures var b := After(l, evs)[id];
            && b.resetAt - l.window <= t
            && 1 <= b.count <= Grants(l, evs, id, b.resetAt - l.window, t)
    decreases |evs|
  {
    var prefix, e := evs[..|evs| - 1], evs[|evs| - 1];
    TimedPrefix(evs);
    if id in After(l, prefix) {
      CountsAreGrants(l, prefix, id, e.now);
      var start := After(l, prefix)[id].resetAt - l.window;
      GrantsWider(l, prefix, id, start, start, e.now, t);
    }
  }

  lemma {:induction false} GrantsWider(l: Limits, evs: seq<Event>, id: string, from: int, from': int, to: int, to': int)
    requires from' <= from && to <= to'
    ensures Grants(l, evs, id, from, to) <= Grants(l, evs, id, from', to')
    decreases |evs|
  {
    if evs != [] {
      GrantsWider(l, evs[..|evs| - 1], id, from, from', to, to');
    }
  }

  /** A client is refused only when max(rate,1) of its requests got through within the window
      that ends at the refusal. */
  lemma RefusalJustified(l: Limits, evs: seq<Event>, id: string, now: int)
    requires Timed(evs) && EndedBy(evs, now)
    requires !Admits(l, After(l, evs), id, now)
    ensures Grants(l, evs, id, now - l.window, now) >= Max(l.rate, 1)
  {
    CountsAreGrants(l, evs, id, now);
    var from := After(l, evs)[id].resetAt - l.window;
    GrantsWider(l, evs, id, from, now - l.window, now, now);
  }
}
