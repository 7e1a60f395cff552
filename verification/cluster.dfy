/** Cluster nodes and the manager that registers them, hears their heartbeats and sweeps out the
    silent ones. */
module Cluster {
  import opened Common

  datatype NodeStatus = Online | Offline | Drain

  // What a node says of itself when it registers.
  datatype Registration = Registration(
    name: string, address: string, port: int, hardware: string, gpuModel: string, gpuMemory: int,
    capacity: int, models: seq<string>)

  datatype Load = Load(
    cpuUsage: real, memoryUsed: real, memoryTotal: real, vramUsed: real, vramTotal: real, activeConns: int)

  function Share(used: real, total: real): (r: real)
    ensures total > 0.0 ==> r * total == used
    ensures total <= 0.0 ==> r == 0.0
  {
    if total > 0.0 then used / total else 0.0
  }

  datatype Shares = Shares(cpu: real, memory: real, vram: real, conns: real)

  function Score(load: Load, capacity: int): real {
    load.cpuUsage / 100.0 * 0.2
    + Share(load.memoryUsed, load.memoryTotal) * 0.2
    + Share(load.vramUsed, load.vramTotal) * 0.4
    + Share(load.activeConns as real, capacity as real) * 0.2
  }

  /** No share of `a` is larger. */
  predicate NoBusier(a: Shares, b: Shares) {
    a.cpu <= b.cpu && a.memory <= b.memory && a.vram <= b.vram && a.conns <= b.conns
  }

  class Node {
    const id: string
    var registration: Registration
    var load: Load
    var status: NodeStatus
    var lastHeartbeat: int
    var joinedAt: int

    constructor (id: string, registration: Registration, load: Load, status: NodeStatus, lastHeartbeat: int)
      ensures this.id == id && this.registration == registration && this.load == load
      ensures this.status == status && this.lastHeartbeat == lastHeartbeat
    {
      this.id, this.registration, this.load := id, registration, load;
      this.status, this.lastHeartbeat, this.joinedAt := status, lastHeartbeat, 0;
    }

    method UpdateLoad(load: Load, now: int)
      modifies this`load, this`lastHeartbeat
      ensures this.load == load && lastHeartbeat == now
    {
      this.load := load;
      lastHeartbeat := now;
    }

    function LoadScore(): real
      reads this
    {
      Score(load, registration.capacity)
    }

    /** How far each resource is used. */
    function Use(): Shares
      reads this
    {
      Shares(load.cpuUsage / 100.0, Share(load.memoryUsed, load.memoryTotal), Share(load.vramUsed, load.vramTotal),
             Share(load.activeConns as real, registration.capacity as real))
    }

    function AvailableSlots(): (slots: nat)
      reads this
      ensures slots > 0 <==> load.activeConns < registration.capacity
      ensures load.activeConns < registration.capacity ==> load.activeConns + slots == registration.capacity
    {
      var free := registration.capacity - load.activeConns;
      if free < 0 then 0 else free
    }

    predicate IsHealthy(now: int, timeout: int)
      reads this
    {
      status == Online && now - lastHeartbeat < timeout
    }
  }

  // ---------------------------------------------------------------- what the load score means

  /** The score grows with every share. */
  lemma ScoreMonotone(n: Node, m: Node)
    requires NoBusier(n.Use(), m.Use())
    ensures n.LoadScore() <= m.LoadScore()
    ensures n.Use() != m.Use() ==> n.LoadScore() < m.LoadScore()
  {
  }

  /** An idle node scores 0, a node used to the full scores 1. */
  lemma ScoreScale(n: Node)
    ensures n.Use() == Shares(0.0, 0.0, 0.0, 0.0) ==> n.LoadScore() == 0.0
    ensures n.Use() == Shares(1.0, 1.0, 1.0, 1.0) ==> n.LoadScore() == 1.0
  {
  }

  /** A rise of the VRAM share weighs as much as twice that rise of any other share, wherever it starts. */
  lemma ScoreWeights(base: Node, n: Node, m: Node, rise: real)
    requires n.Use() == base.Use().(vram := base.Use().vram + rise)
    requires || m.Use() == base.Use().(cpu := base.Use().cpu + 2.0 * rise)
             || m.Use() == base.Use().(memory := base.Use().memory + 2.0 * rise)
             || m.Use() == base.Use().(conns := base.Use().conns + 2.0 * rise)
    ensures n.LoadScore() == m.LoadScore()
    ensures rise > 0.0 ==> n.LoadScore() > base.LoadScore()
  {
  }

  /** A resource whose total is not known, and a node without capacity, add nothing. */
  lemma UnknownTotals(n: Node)
    ensures n.load.memoryTotal == 0.0 ==> n.Use().memory == 0.0
    ensures n.load.vramTotal == 0.0 ==> n.Use().vram == 0.0
    ensures n.registration.capacity == 0 ==> n.Use().conns == 0.0
    ensures n.load.cpuUsage == 100.0 * n.Use().cpu
    ensures n.load.memoryTotal > 0.0 ==> n.load.memoryUsed == n.Use().memory * n.load.memoryTotal
    ensures n.load.vramTotal > 0.0 ==> n.load.vramUsed == n.Use().vram * n.load.vramTotal
    ensures n.registration.capacity > 0 ==>
              n.load.activeConns as real == n.Use().conns * n.registration.capacity as real
  {
  }

  // ---------------------------------------------------------------- the manager

  datatype Health = Health(status: NodeStatus, lastHeartbeat: int)
  type Table = map<string, Health>

  datatype Event =
    | Register(id: string, now: int)
    | Heartbeat(id: string, now: int)
    | Deregister(id: string)
    | Sweep(now: int)

  function Swept(h: Health, now: int, timeout: int): Health {
    if h.status == Online && now - h.lastHeartbeat > timeout then h.(status := Offline) else h
  }

  function Step(timeout: int, t: Table, e: Event): Table {
    match e
    case Register(id, now) => t[id := Health(Online, now)]
    case Heartbeat(id, now) => if id in t then t[id := Health(t[id].status, now)] else t
    case Deregister(id) => t - {id}
    case Sweep(now) => map id | id in t :: Swept(t[id], now, timeout)
  }

  class Manager {
    var nodes: map<string, Node>
    const heartbeatTimeout: int

    ghost predicate Valid()
      reads this
    {
      forall id | id in nodes :: nodes[id].id == id
    }

    ghost function View(): Table
      reads this, nodes.Values
    {
      map id | id in nodes :: Health(nodes[id].status, nodes[id].lastHeartbeat)
    }

    constructor (heartbeatTimeout: int)
      ensures Valid() && nodes == map[] && View() == map[] && this.heartbeatTimeout == heartbeatTimeout
    {
      nodes, this.heartbeatTimeout := map[], heartbeatTimeout;
      new;
      assert View() == map[];
    }

    /** A known node keeps its record and its load; a new one is stored as it comes. */
    method RegisterNode(node: Node, now: int)
      requires Valid()
      modifies this, nodes.Values, node
      ensures Valid() && View() == Step(heartbeatTimeout, old(View()), Register(node.id, now))
      ensures nodes == if node.id in old(nodes) then old(nodes) else old(nodes)[node.id := node]
      ensures nodes[node.id].registration == old(node.registration)
      ensures nodes[node.id].load == old(if node.id in nodes then nodes[node.id].load else node.load)
      ensures node.id !in old(nodes) ==> nodes[node.id].joinedAt == now
      ensures forall id | id in old(nodes) && id != node.id ::
                old(nodes)[id] != node ==> unchanged(old(nodes)[id])
    {
      if node.id in nodes {
        var existing := nodes[node.id];
        existing.registration := node.registration;
        existing.status := Online;
        existing.lastHeartbeat := now;
      } else {
        node.status := Online;
        node.lastHeartbeat := now;
        node.joinedAt := now;
        nodes := nodes[node.id := node];
      }
    }

    method UpdateNodeHeartbeat(id: string, load: Load, now: int)
      requires Valid()
      modifies nodes.Values
      ensures View() == Step(heartbeatTimeout, old(View()), Heartbeat(id, now))
      ensures id in nodes ==> nodes[id].load == load && nodes[id].registration == old(nodes[id].registration)
      ensures forall other | other in nodes && other != id :: unchanged(nodes[other])
    {
      if id !in nodes {
        return;
      }
      nodes[id].UpdateLoad(load, now);
    }

    method DeregisterNode(id: string)
      requires Valid()
      modifies this
      ensures Valid() && nodes == old(nodes) - {id}
      ensures View() == Step(heartbeatTimeout, old(View()), Deregister(id))
    {
      if id in nodes {
        nodes := nodes - {id};
      }
    }

    /** One tick of CheckStale: visits the nodes in any order. */
    method CheckStale(now: int)
      requires Valid()
      modifies nodes.Values
      ensures View() == Step(heartbeatTimeout, old(View()), Sweep(now))
    {
      var pending := nodes.Keys;
      while pending != {}
        invariant pending <= nodes.Keys
        invariant forall id | id in nodes :: nodes[id].lastHeartbeat == old(nodes[id].lastHeartbeat)
        invariant forall id | id in nodes ::
                    Health(nodes[id].status, nodes[id].lastHeartbeat)
                    == if id in pending then old(View())[id] else Swept(old(View())[id], now, heartbeatTimeout)
        decreases pending
      {
        var id :| id in pending;
        pending := pending - {id};
        var node := nodes[id];
        if node.status == Online && now - node.lastHeartbeat > heartbeatTimeout {
          node.status := Offline;
        }
      }
    }

    /** The healthy nodes in some order, each once. */
    method GetHealthyNodes(now: int) returns (healthy: seq<Node>)
      requires Valid()
      ensures forall n | n in healthy :: n.id in nodes && nodes[n.id] == n
      ensures forall id | id in nodes :: nodes[id] in healthy <==> HealthyAt(View(), id, now, heartbeatTimeout)
      ensures forall i, k | 0 <= i < k < |healthy| :: healthy[i] != healthy[k]
    {
      healthy := [];
      var pending := nodes.Keys;
      while pending != {}
        invariant pending <= nodes.Keys
        invariant forall n | n in healthy :: n.id in nodes && nodes[n.id] == n && n.id !in pending
        invariant forall id | id in nodes && id !in pending ::
                    nodes[id] in healthy <==> HealthyAt(View(), id, now, heartbeatTimeout)
        invariant forall i, k | 0 <= i < k < |healthy| :: healthy[i] != healthy[k]
        decreases pending
      {
        var id :| id in pending;
        pending := pending - {id};
        var n := nodes[id];
        if n.IsHealthy(now, heartbeatTimeout) && n.status == Online {
          healthy := healthy + [n];
        }
      }
    }
  }

  predicate HealthyAt(t: Table, id: string, now: int, timeout: int) {
    id in t && t[id].status == Online && now - t[id].lastHeartbeat < timeout
  }

  // ---------------------------------------------------------------- traces

  function After(timeout: int, evs: seq<Event>): Table {
    if evs == [] then map[] else Step(timeout, After(timeout, evs[..|evs| - 1]), evs[|evs| - 1])
  }

  /** `r` is the latest registration of `id`, with no deregistration after it. */
  predicate RegisteredAt(evs: seq<Event>, id: string, r: nat) {
    && r < |evs| && evs[r].Register? && evs[r].id == id
    && forall k | r < k < |evs| :: !((evs[k].Register? || evs[k].Deregister?) && evs[k].id == id)
  }

  /** Time of the latest registration or heartbeat of `id`. */
  function LastContact(evs: seq<Event>, id: string): Option<int> {
    if evs == [] then None
    else
      var e := evs[|evs| - 1];
      if (e.Register? || e.Heartbeat?) && e.id == id then Some(e.now) else LastContact(evs[..|evs| - 1], id)
  }

  /** The sweep at `k` finds the latest contact of `id` more than the timeout ago. */
  predicate StaleSweep(timeout: int, evs: seq<Event>, id: string, k: nat) {
    && k < |evs| && evs[k].Sweep?
    && LastContact(evs[..k], id).Some? && evs[k].now - LastContact(evs[..k], id).value > timeout
  }

  predicate NeverStale(timeout: int, evs: seq<Event>, id: string, r: nat) {
    forall k | r < k < |evs| :: !StaleSweep(timeout, evs, id, k)
  }

  lemma PrefixRegistered(evs: seq<Event>, id: string, r: nat)
    requires evs != [] && r < |evs| - 1
    requires var e := evs[|evs| - 1]; !((e.Register? || e.Deregister?) && e.id == id)
    ensures RegisteredAt(evs, id, r) <==> RegisteredAt(evs[..|evs| - 1], id, r)
  {
    var prefix := evs[..|evs| - 1];
    assert forall k | 0 <= k < |prefix| :: prefix[k] == evs[k];
    if RegisteredAt(prefix, id, r) {
      forall k | r < k < |evs| ensures !((evs[k].Register? || evs[k].Deregister?) && evs[k].id == id) {
        if k < |prefix| {
          assert prefix[k] == evs[k];
        }
      }
    }
  }

  lemma PrefixStale(timeout: int, evs: seq<Event>, id: string, r: nat)
    requires evs != [] && r < |evs| - 1
    ensures NeverStale(timeout, evs, id, r) <==>
            NeverStale(timeout, evs[..|evs| - 1], id, r) && !StaleSweep(timeout, evs, id, |evs| - 1)
  {
    var prefix := evs[..|evs| - 1];
    forall k: nat | k < |prefix| ensures StaleSweep(timeout, prefix, id, k) <==> StaleSweep(timeout, evs, id, k) {
      assert prefix[..k] == evs[..k] && prefix[k] == evs[k];
    }
  }

  /** The manager's record of a node, read off the trace. */
  lemma {:induction false} RecordIsTrace(timeout: int, evs: seq<Event>, id: string) returns (r: nat)
    ensures id !in After(timeout, evs) ==> forall k: nat :: !RegisteredAt(evs, id, k)
    ensures id in After(timeout, evs) ==>
              && RegisteredAt(evs, id, r)
              && LastContact(evs, id) == Some(After(timeout, evs)[id].lastHeartbeat)
              && After(timeout, evs)[id].status == if NeverStale(timeout, evs, id, r) then Online else Offline
    decreases |evs|
  {
    r := 0;
    if evs != [] {
      var n := |evs| - 1;
      var prefix, e := evs[..n], evs[n];
      r := RecordIsTrace(timeout, prefix, id);
      if e.Register? && e.id == id {
        r := n;
      } else if e.Deregister? && e.id == id {
      } else {
        forall k: nat | k < n ensures RegisteredAt(evs, id, k) <==> RegisteredAt(prefix, id, k) {
          PrefixRegistered(evs, id, k);
        }
        if id in After(timeout, prefix) {
          PrefixStale(timeout, evs, id, r);
        }
      }
    }
  }

  /** A node is healthy at `t` exactly when it was registered after any deregistration, no sweep
      since found it silent for longer than the timeout, and it was heard of less than the timeout
      before `t`. */
  lemma HealthIsTrace(timeout: int, evs: seq<Event>, id: string, t: int)
    ensures HealthyAt(After(timeout, evs), id, t, timeout) <==>
            exists r: nat ::
              && RegisteredAt(evs, id, r) && NeverStale(timeout, evs, id, r)
              && LastContact(evs, id).Some? && t - LastContact(evs, id).value < timeout
  {
    var r := RecordIsTrace(timeout, evs, id);
    forall k: nat | RegisteredAt(evs, id, k) ensures id in After(timeout, evs) && k == r {
      OneRegistration(evs, id, k, r);
    }
  }

  lemma OneRegistration(evs: seq<Event>, id: string, k: nat, r: nat)
    requires RegisteredAt(evs, id, k) && RegisteredAt(evs, id, r)
    ensures k == r
  {
  }

  /** Without a registration an unhealthy record stays so: heartbeats alone never revive a node. */
  lemma {:induction false} HeartbeatsDoNotRevive(timeout: int, evs: seq<Event>, later: seq<Event>, id: string)
    requires id !in After(timeout, evs) || After(timeout, evs)[id].status != Online
    requires forall k | 0 <= k < |later| :: later[k].Register? ==> later[k].id != id
    ensures var t := After(timeout, evs + later); id !in t || t[id].status != Online
    decreases |later|
  {
    if later == [] {
      assert evs + later == evs;
    } else {
      var n := |later| - 1;
      HeartbeatsDoNotRevive(timeout, evs, later[..n], id);
      assert (evs + later)[..|evs + later| - 1] == evs + later[..n];
    }
  }
}
