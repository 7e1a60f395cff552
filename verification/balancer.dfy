/** Node selection: filtering, the four strategies, and the fairness of round robin. */
module Balancer {
  import opened Cluster

  datatype Strategy = LeastLoad | RoundRobin | Random | Capacity | Unknown(name: string)

  const HEALTH_TIMEOUT: int := 10_000_000_000

  predicate Eligible(n: Node, now: int)
    reads n
  {
    n.IsHealthy(now, HEALTH_TIMEOUT) && n.AvailableSlots() > 0
  }

  function EligibleNodes(nodes: seq<Node>, now: int): seq<Node>
    reads nodes
  {
    if nodes == [] then []
    else EligibleNodes(nodes[..|nodes| - 1], now)
         + if Eligible(nodes[|nodes| - 1], now) then [nodes[|nodes| - 1]] else []
  }

  /** Online, heard of less than ten seconds ago, and with a free slot. */
  predicate Fit(n: Node, now: int)
    reads n
  {
    && n.status == Online && now - n.lastHeartbeat < 10_000_000_000
    && n.load.activeConns < n.registration.capacity
  }

  function OpenSlots(n: Node): int
    reads n
  {
    n.registration.capacity - n.load.activeConns
  }

  /** Of least score in the list, so that no other node of it is used no more in every respect. */
  ghost predicate LeastLoaded(n: Node, nodes: seq<Node>)
    reads n, nodes
  {
    && n in nodes
    && (forall other | other in nodes :: n.LoadScore() <= other.LoadScore())
    && (forall other | other in nodes && other.Use() != n.Use() :: !NoBusier(other.Use(), n.Use()))
  }

  /** Of most free slots in the list. */
  ghost predicate MostSlots(n: Node, nodes: seq<Node>)
    reads n, nodes
  {
    n in nodes && forall other | other in nodes && OpenSlots(other) > 0 :: OpenSlots(n) >= OpenSlots(other)
  }

  lemma EligibleTested(n: Node, now: int)
    ensures Eligible(n, now) <==> n.IsHealthy(now, HEALTH_TIMEOUT) && n.AvailableSlots() > 0
    ensures Eligible(n, now) <==> Fit(n, now)
  {
  }

  lemma {:induction false} FitAreEligible(nodes: seq<Node>, now: int)
    ensures forall n: Node :: n in EligibleNodes(nodes, now) <==> n in nodes && Fit(n, now)
    decreases |nodes|
  {
    if nodes != [] {
      FitAreEligible(nodes[..|nodes| - 1], now);
      EligibleTested(nodes[|nodes| - 1], now);
      hide Eligible, Fit;
    }
  }

  lemma EligibleNone(now: int)
    ensures EligibleNodes([], now) == []
  {
  }

  lemma EligibleNext(nodes: seq<Node>, i: nat, now: int)
    requires i < |nodes|
    ensures EligibleNodes(nodes[..i + 1], now)
            == EligibleNodes(nodes[..i], now) + if Eligible(nodes[i], now) then [nodes[i]] else []
  {
    assert nodes[..i + 1][..i] == nodes[..i];
  }

  /** The eligible nodes keep their order, each as often as it is listed. */
  lemma {:induction false} EligibleConcat(a: seq<Node>, b: seq<Node>, now: int)
    ensures EligibleNodes(a + b, now) == EligibleNodes(a, now) + EligibleNodes(b, now)
    decreases |b|
  {
    hide Eligible, EligibleNodes;
    if b == [] {
      EligibleNone(now);
      assert a + b == a;
    } else {
      var n := |b| - 1;
      EligibleConcat(a, b[..n], now);
      EligibleNext(a + b, |a| + n, now);
      EligibleNext(b, n, now);
      assert (a + b)[..|a| + n] == a + b[..n] && (a + b)[..|a| + n + 1] == a + b && b[..n + 1] == b;
    }
  }

  /** What a strategy sorts by, ascending. */
  function Key(n: Node, byLoad: bool): real
    reads n
  {
    if byLoad then n.LoadScore() else -(n.AvailableSlots() as real)
  }

  ghost predicate Ascending(s: seq<Node>, byLoad: bool)
    reads s
  {
    forall i, k | 0 <= i < k < |s| :: Key(s[i], byLoad) <= Key(s[k], byLoad)
  }

  lemma PlacedAscending(sorted: seq<Node>, n: Node, p: nat, byLoad: bool)
    requires Ascending(sorted, byLoad) && p <= |sorted|
    requires p > 0 ==> Key(sorted[p - 1], byLoad) <= Key(n, byLoad)
    requires p < |sorted| ==> Key(n, byLoad) <= Key(sorted[p], byLoad)
    ensures Ascending(sorted[..p] + [n] + sorted[p..], byLoad)
  {
    hide Key;
    var r := sorted[..p] + [n] + sorted[p..];
    assert forall i | 0 <= i < |r| :: r[i] == if i < p then sorted[i] else if i == p then n else sorted[i - 1];
  }

  lemma PlacedMultiset(sorted: seq<Node>, n: Node, p: nat)
    requires p <= |sorted|
    ensures multiset(sorted[..p] + [n] + sorted[p..]) == multiset(sorted) + multiset{n}
  {
    assert sorted == sorted[..p] + sorted[p..];
  }

  method InsertNode(sorted: seq<Node>, n: Node, byLoad: bool) returns (r: seq<Node>)
    requires Ascending(sorted, byLoad)
    ensures Ascending(r, byLoad) && multiset(r) == multiset(sorted) + multiset{n}
  {
    hide Key;
    var p := |sorted|;
    while p > 0 && Key(sorted[p - 1], byLoad) > Key(n, byLoad)
      invariant 0 <= p <= |sorted|
      invariant p < |sorted| ==> Key(n, byLoad) < Key(sorted[p], byLoad)
    {
      p := p - 1;
    }
    r := sorted[..p] + [n] + sorted[p..];
    PlacedAscending(sorted, n, p, byLoad);
    PlacedMultiset(sorted, n, p);
  }

  /** sort.Slice on a local slice: some permutation in ascending order. */
  method SortNodes(nodes: seq<Node>, byLoad: bool) returns (sorted: seq<Node>)
    ensures multiset(sorted) == multiset(nodes) && Ascending(sorted, byLoad)
  {
    sorted := [];
    for i := 0 to |nodes|
      invariant multiset(sorted) == multiset(nodes[..i]) && Ascending(sorted, byLoad)
    {
      sorted := InsertNode(sorted, nodes[i], byLoad);
      assert nodes[..i + 1] == nodes[..i] + [nodes[i]];
    }
    assert nodes[..|nodes|] == nodes;
  }

  class Balancer {
    var strategy: Strategy
    var rrIndex: nat

    constructor (strategy: Strategy)
      ensures this.strategy == (if strategy == Unknown("") then LeastLoad else strategy) && rrIndex == 0
    {
      this.strategy := if strategy == Unknown("") then LeastLoad else strategy;
      rrIndex := 0;
    }

    /** Head of the slice sorted by load, or by free slots the other way round. */
    method First(nodes: seq<Node>, byLoad: bool) returns (n: Node)
      requires nodes != []
      ensures n in nodes && forall other | other in nodes :: Key(n, byLoad) <= Key(other, byLoad)
    {
      var sorted := SortNodes(nodes, byLoad);
      assert |multiset(sorted)| == |multiset(nodes)|;
      n := sorted[0];
      assert n in multiset(nodes);
      forall other | other in nodes ensures Key(n, byLoad) <= Key(other, byLoad) {
        assert other in multiset(sorted);
      }
    }

    method LeastLoadNode(nodes: seq<Node>) returns (n: Node)
      requires nodes != []
      ensures LeastLoaded(n, nodes)
    {
      hide Key;
      n := First(nodes, true);
      KeysAreLoads(nodes, n);
    }

    method BestCapacity(nodes: seq<Node>) returns (n: Node)
      requires nodes != []
      ensures MostSlots(n, nodes)
    {
      hide Key;
      n := First(nodes, false);
      KeysAreSlots(nodes, n);
    }

    method PickRoundRobin(nodes: seq<Node>) returns (n: Node)
      requires nodes != []
      modifies this`rrIndex
      ensures n == nodes[old(rrIndex) % |nodes|] && rrIndex == old(rrIndex) + 1
    {
      var idx := rrIndex % |nodes|;
      rrIndex := rrIndex + 1;
      n := nodes[idx];
    }

    method Healthy(nodes: seq<Node>, now: int) returns (healthy: seq<Node>)
      ensures healthy == EligibleNodes(nodes, now)
    {
      healthy := [];
      for i := 0 to |nodes|
        invariant healthy == EligibleNodes(nodes[..i], now)
      {
        EligibleNext(nodes, i, now);
        if nodes[i].IsHealthy(now, HEALTH_TIMEOUT) && nodes[i].AvailableSlots() > 0 {
          healthy := healthy + [nodes[i]];
        }
      }
      assert nodes[..|nodes|] == nodes;
    }

    /** `draw` is the random number behind the random strategy. */
    method Choose(healthy: seq<Node>, draw: nat) returns (n: Node)
      requires healthy != []
      modifies this`rrIndex
      ensures n in healthy
      ensures strategy.LeastLoad? || strategy.Unknown? ==> LeastLoaded(n, healthy)
      ensures strategy.Capacity? ==> MostSlots(n, healthy)
      ensures strategy.RoundRobin? ==> n == healthy[old(rrIndex) % |healthy|]
      ensures rrIndex == old(rrIndex) + if strategy.RoundRobin? then 1 else 0
    {
      match strategy
      case LeastLoad => n := LeastLoadNode(healthy);
      case RoundRobin => n := PickRoundRobin(healthy);
      case Random => n := healthy[draw % |healthy|];
      case Capacity => n := BestCapacity(healthy);
      case Unknown(_) => n := LeastLoadNode(healthy);
    }

    method SelectNode(nodes: seq<Node>, now: int, draw: nat) returns (n: Node?)
      modifies this`rrIndex
      ensures n == null <==> EligibleNodes(nodes, now) == []
      ensures if n == null then forall m | m in nodes :: !Fit(m, now) else n in nodes && Fit(n, now)
      ensures n != null && (strategy.LeastLoad? || strategy.Unknown?) ==> LeastLoaded(n, EligibleNodes(nodes, now))
      ensures n != null && strategy.Capacity? ==> MostSlots(n, EligibleNodes(nodes, now))
      ensures n != null && strategy.RoundRobin? ==>
                n == EligibleNodes(nodes, now)[old(rrIndex) % |EligibleNodes(nodes, now)|]
      ensures rrIndex == old(rrIndex) + if n != null && strategy.RoundRobin? then 1 else 0
    {
      hide Eligible, Fit, EligibleNodes, LeastLoaded, MostSlots;
      var healthy := Healthy(nodes, now);
      if |healthy| == 0 {
        FitAreEligible(nodes, now);
        return null;
      }
      n := Choose(healthy, draw);
      FitAreEligible(nodes, now);
    }
  }

  lemma KeysAreLoads(nodes: seq<Node>, n: Node)
    requires n in nodes && forall other | other in nodes :: Key(n, true) <= Key(other, true)
    ensures LeastLoaded(n, nodes)
  {
    forall other | other in nodes
      ensures n.LoadScore() <= other.LoadScore()
      ensures other.Use() != n.Use() ==> !NoBusier(other.Use(), n.Use())
    {
      assert Key(n, true) <= Key(other, true);
      if NoBusier(other.Use(), n.Use()) {
        ScoreMonotone(other, n);
      }
    }
  }

  lemma KeysAreSlots(nodes: seq<Node>, n: Node)
    requires n in nodes && forall other | other in nodes :: Key(n, false) <= Key(other, false)
    ensures MostSlots(n, nodes)
  {
    forall other | other in nodes
      ensures other.load.activeConns < other.registration.capacity ==> OpenSlots(n) >= OpenSlots(other)
    {
      assert Key(n, false) <= Key(other, false);
    }
  }

  // ---------------------------------------------------------------- round-robin fairness

  /** How often `n` consecutive selections from counter `start` on pick place `j` of `m`. */
  function Picks(start: nat, n: nat, m: nat, j: nat): nat
    requires m > 0
  {
    if n == 0 then 0 else Picks(start, n - 1, m, j) + if (start + n - 1) % m == j then 1 else 0
  }

  lemma DivModIs(x: nat, m: nat, q: nat, r: nat)
    requires r < m && x == m * q + r
    ensures x % m == r && x / m == q
  {
    var d := x / m - q;
    assert m * d + x % m == r;
  }

  lemma WrapsBy(start: nat, k: nat, m: nat, q: nat, r: nat)
    requires k < m && r < m && start == m * q + r
    ensures (start + k) % m == if r + k < m then r + k else r + k - m
  {
    if r + k < m {
      DivModIs(start + k, m, q, r + k);
    } else {
      assert m * (q + 1) == m * q + m;
      DivModIs(start + k, m, q + 1, r + k - m);
    }
  }

  /** Within one turn of the wheel the places come up in order. */
  lemma Wraps(start: nat, k: nat, m: nat)
    requires k < m
    ensures (start + k) % m == if start % m + k < m then start % m + k else start % m + k - m
  {
    WrapsBy(start, k, m, start / m, start % m);
  }

  lemma {:induction false} WithinTurn(start: nat, n: nat, m: nat, j: nat)
    requires n <= m && j < m
    ensures var d := if start % m <= j then j - start % m else j - start % m + m;
            Picks(start, n, m, j) == if d < n then 1 else 0
  {
    if n > 0 {
      WithinTurn(start, n - 1, m, j);
      Wraps(start, n - 1, m);
    }
  }

  lemma {:induction false} PicksSplit(start: nat, a: nat, b: nat, m: nat, j: nat)
    requires m > 0
    ensures Picks(start, a + b, m, j) == Picks(start, a, m, j) + Picks(start + a, b, m, j)
    decreases b
  {
    if b > 0 {
      PicksSplit(start, a, b - 1, m, j);
    }
  }

  lemma {:induction false} FairBy(start: nat, n: nat, m: nat, j: nat, q: nat, r: nat)
    requires j < m && r < m && n == m * q + r
    ensures q <= Picks(start, n, m, j) <= q + if r == 0 then 0 else 1
    decreases q
  {
    if q == 0 {
      WithinTurn(start, n, m, j);
    } else {
      assert m * (q - 1) == m * q - m;
      FairBy(start, n - m, m, j, q - 1, r);
      PicksSplit(start, n - m, m, m, j);
      WithinTurn(start + n - m, m, m, j);
    }
  }

  predicate Distinct(nodes: seq<Node>) {
    forall i, k | 0 <= i < k < |nodes| :: nodes[i] != nodes[k]
  }

  /** What consecutive round-robin selections return, the counter starting at `start`. */
  ghost predicate InTurn(picks: seq<Node>, eligible: seq<Node>, start: nat) {
    eligible != [] && forall k | 0 <= k < |picks| :: picks[k] == eligible[(start + k) % |eligible|]
  }

  lemma {:induction false} TimesPicked(picks: seq<Node>, eligible: seq<Node>, start: nat, j: nat)
    requires InTurn(picks, eligible, start) && Distinct(eligible) && j < |eligible|
    ensures multiset(picks)[eligible[j]] == Picks(start, |picks|, |eligible|, j)
    decreases |picks|
  {
    if picks != [] {
      var n := |picks| - 1;
      TimesPicked(picks[..n], eligible, start, j);
      assert picks == picks[..n] + [picks[n]];
    }
  }

  /** The floor or the ceiling of n/m. */
  predicate EvenShare(times: int, n: nat, m: nat)
    requires m > 0
  {
    n / m <= times <= n / m + if n % m == 0 then 0 else 1
  }

  lemma PlacesShareEvenly(start: nat, n: nat, m: nat, j: nat)
    requires j < m
    ensures EvenShare(Picks(start, n, m, j), n, m)
  {
    FairBy(start, n, m, j, n / m, n % m);
  }

  /** Consecutive selections from a fixed list of distinct nodes take each node equally often. */
  lemma RoundRobinFair(picks: seq<Node>, eligible: seq<Node>, start: nat, node: Node)
    requires InTurn(picks, eligible, start) && Distinct(eligible) && node in eligible
    ensures EvenShare(multiset(picks)[node], |picks|, |eligible|)
  {
    hide EvenShare, Picks, InTurn, Distinct;
    var j :| 0 <= j < |eligible| && eligible[j] == node;
    TimesPicked(picks, eligible, start, j);
    PlacesShareEvenly(start, |picks|, |eligible|, j);
  }

  /** A caller's consecutive selections while the eligible nodes stay the same. */
  method SelectInTurn(b: Balancer, nodes: seq<Node>, times: seq<int>, draw: nat, ghost eligible: seq<Node>)
    returns (picks: seq<Node>)
    requires b.strategy.RoundRobin? && eligible != [] && Distinct(eligible)
    requires forall i | 0 <= i < |times| :: EligibleNodes(nodes, times[i]) == eligible
    modifies b`rrIndex
    ensures |picks| == |times| && InTurn(picks, eligible, old(b.rrIndex))
    ensures forall node | node in eligible :: EvenShare(multiset(picks)[node], |picks|, |eligible|)
  {
    hide EvenShare, EligibleNodes, Distinct;
    picks := [];
    ghost var start := b.rrIndex;
    for i := 0 to |times|
      invariant b.strategy.RoundRobin? && b.rrIndex == start + i && |picks| == i
      invariant InTurn(picks, eligible, start)
    {
      var n := b.SelectNode(nodes, times[i], draw);
      assert EligibleNodes(nodes, times[i]) == eligible;
      picks := picks + [n];
    }
    forall node | node in eligible ensures EvenShare(multiset(picks)[node], |picks|, |eligible|) {
      RoundRobinFair(picks, eligible, start, node);
    }
  }
}
