/** Constrained path computation: which links are admissible, what they cost, and how disjoint
    backups are searched with exclusions shared between calls. */
module Policy {
  import opened Basics
  import opened Fabric
  import opened Graph
  import Dijkstra

  datatype Options = Options(at: Time, maxAge: Time, links: set<string>, nodes: set<string>, groups: set<string>)

  ghost predicate Enabled(nodes: seq<Node>, options: Options, id: string) {
    id !in options.nodes && exists i :: 0 <= i < |nodes| && nodes[i].id == id && nodes[i].enabled
  }

  ghost predicate Admissible(nodes: seq<Node>, intent: Intent, options: Options, link: Link) {
    && link.id !in options.links
    && Enabled(nodes, options, link.source) && Enabled(nodes, options, link.target)
    && Suitable(intent, options, link)
  }

  /** The admission rules that concern the link alone. */
  predicate Suitable(intent: Intent, options: Options, link: Link) {
    var required := Max(intent.minCapacity, intent.demand);
    && link.Usable(options.at, options.maxAge)
    && (forall g | g in link.riskGroups :: g !in options.groups)
    && (required > 0 ==> link.capacity >= required)
    && (intent.maxLoss > 0 ==> link.loss <= intent.maxLoss)
    && (intent.requiredReliability > 0 ==> link.reliability >= intent.requiredReliability)
  }

  /** The cost of a link under a built-in policy, in 64-bit arithmetic. */
  function EdgeCost(link: Link, policy: string): int
    requires link.capacity > 0 && link.latency >= 0
  {
    if policy == "hops" then 1
    else if policy == "capacity" then 1_000_000_000_000 / link.capacity + Max(1, link.latency / 1_000)
    else if policy == "reliability" then
      Wrap64(Max(1, Wrap64(1_000_000 - link.reliability)) + Max(1, link.latency / 100))
    else Max(1, link.latency)
  }

  /** Link costs are positive; only the reliability cost of a wildly negative reliability overflows. */
  lemma EdgeCostPositive(link: Link, policy: string)
    requires link.capacity > 0 && link.latency >= 0 && Int64(link.latency) && Int64(link.reliability)
    ensures EdgeCost(link, policy) >= 1 <==>
            (policy == "reliability" ==>
               Max(1, Wrap64(1_000_000 - link.reliability)) + Max(1, link.latency / 100) <= MAX)
  {
    if policy == "reliability" {
      var sum := Max(1, Wrap64(1_000_000 - link.reliability)) + Max(1, link.latency / 100);
      assert 2 <= sum <= 2 * MAX + 1;
      if sum <= MAX {
        assert Wrap64(sum) == sum;
      } else {
        assert Wrap64(sum) == sum - 0x1_0000_0000_0000_0000;
      }
    }
  }

  lemma CostInRange(link: Link, policy: string)
    requires link.capacity > 0 && link.latency >= 0 && Int64(link.latency) && Int64(link.reliability)
    ensures EdgeCost(link, policy) != 0 && Int64(EdgeCost(link, policy))
  {
    if policy == "reliability" {
      var sum := Max(1, Wrap64(1_000_000 - link.reliability)) + Max(1, link.latency / 100);
      assert 2 <= sum <= 2 * MAX;
      assert Wrap64(sum) == if sum <= MAX then sum else sum - 0x1_0000_0000_0000_0000;
    } else if policy == "capacity" {
      assert 0 <= 1_000_000_000_000 / link.capacity <= 1_000_000_000_000;
    }
  }

  /** One such reliability: the cost of the link is the smallest 64-bit integer. */
  lemma ReliabilityOverflows(link: Link)
    requires link.capacity > 0 && link.latency == 0 && link.reliability == 1_000_000 - MAX
    ensures Int64(link.reliability) && EdgeCost(link, "reliability") == -MAX - 1
  {
    assert Wrap64(1_000_000 - link.reliability) == MAX;
  }

  /** A reliability within its parts-per-million range never overflows. */
  lemma ReliabilityInRange(link: Link)
    requires link.latency >= 0 && Int64(link.latency) && 0 <= link.reliability && Int64(link.reliability)
    ensures Max(1, Wrap64(1_000_000 - link.reliability)) + Max(1, link.latency / 100) <= MAX
  {
    assert Wrap64(1_000_000 - link.reliability) == 1_000_000 - link.reliability;
  }

  /** Latencies and reliabilities are 64-bit integers. */
  ghost predicate Ranged(snapshot: Snapshot) {
    forall i :: 0 <= i < |snapshot.links| ==> Int64(snapshot.links[i].latency) && Int64(snapshot.links[i].reliability)
  }

  /** The admissible links with their costs, overflowed ones included. */
  ghost function RawEdges(snapshot: Snapshot, intent: Intent, policy: string, options: Options): set<Edge> {
    set i | 0 <= i < |snapshot.links| && Admissible(snapshot.nodes, intent, options, snapshot.links[i])
      :: Edge(snapshot.links[i], EdgeCost(snapshot.links[i], policy))
  }

  /** The admissible links the search can use. */
  ghost function Edges(snapshot: Snapshot, intent: Intent, policy: string, options: Options): set<Edge> {
    Dijkstra.Priced(RawEdges(snapshot, intent, policy, options))
  }

  /** A link is left out of the search for its cost exactly if its reliability cost overflows. */
  lemma OverflowUnused(snapshot: Snapshot, intent: Intent, policy: string, options: Options, e: Edge)
    requires Ranged(snapshot) && e in RawEdges(snapshot, intent, policy, options)
    ensures e !in Edges(snapshot, intent, policy, options) <==>
              && policy == "reliability"
              && Max(1, Wrap64(1_000_000 - e.link.reliability)) + Max(1, e.link.latency / 100) > MAX
  {
    EdgeCostPositive(e.link, policy);
  }

  lemma EdgesProper(snapshot: Snapshot, intent: Intent, policy: string, options: Options)
    requires snapshot.Valid()
    ensures Proper(Edges(snapshot, intent, policy, options))
  {
  }

  lemma EdgesCosted(snapshot: Snapshot, intent: Intent, policy: string, options: Options)
    requires Ranged(snapshot)
    ensures Dijkstra.Costed(RawEdges(snapshot, intent, policy, options))
  {
    forall e | e in RawEdges(snapshot, intent, policy, options) ensures e.cost != 0 && Int64(e.cost) {
      CostInRange(e.link, policy);
    }
  }

  // ---- what a path adds up to ----------------------------------------------------------------

  function Latency(p: seq<Edge>): int {
    if p == [] then 0 else Wrap64(Latency(p[..|p| - 1]) + p[|p| - 1].link.latency)
  }

  function LinkIds(p: seq<Edge>): (r: seq<string>)
    ensures |r| == |p| && forall i :: 0 <= i < |p| ==> r[i] == p[i].link.id
  {
    seq(|p|, i requires 0 <= i < |p| => p[i].link.id)
  }

  function RiskGroups(p: seq<Edge>): (r: set<string>)
    ensures forall i, g :: 0 <= i < |p| && g in p[i].link.riskGroups ==> g in r
    ensures forall g :: g in r ==> exists i :: 0 <= i < |p| && g in p[i].link.riskGroups
  {
    set i, g | 0 <= i < |p| && g in p[i].link.riskGroups :: g
  }

  /** The loss of two stretches in parts per million, in 64-bit arithmetic. */
  function CombinedLoss(current: int, next: int): int {
    Wrap64(Wrap64(current + next) - Quotient(Wrap64(current * next), 1_000_000))
  }

  function Loss(p: seq<Edge>): int {
    if p == [] then 0 else CombinedLoss(Loss(p[..|p| - 1]), p[|p| - 1].link.loss)
  }

  /** The capacity of the tightest link. */
  function Capacity(p: seq<Edge>): (c: int)
    ensures forall i :: 0 <= i < |p| ==> c <= p[i].link.capacity
    ensures c == MAX || exists i :: 0 <= i < |p| && c == p[i].link.capacity
  {
    if p == [] then MAX else
      var front, last := p[..|p| - 1], p[|p| - 1];
      assert forall i :: 0 <= i < |front| ==> front[i] == p[i];
      if last.link.capacity < Capacity(front) then last.link.capacity else Capacity(front)
  }

  ghost function PathOf(source: string, p: seq<Edge>): Path {
    Path(NodesOf(source, p), LinkIds(p), Latency(p), Loss(p), Capacity(p), Cost(p), RiskGroups(p))
  }

  // ---- the search ----------------------------------------------------------------------------

  ghost predicate Exceeds(intent: Intent, p: seq<Edge>) {
    intent.maxLatency > 0 && Latency(p) > intent.maxLatency
  }

  ghost predicate Reachable(edges: set<Edge>, intent: Intent, p: seq<Edge>) {
    Canonical(edges, intent.source, intent.destination, p) && Cost(p) < MAX
  }

  lemma ReachableIsPath(edges: set<Edge>, intent: Intent, q: seq<Edge>)
    requires Reachable(edges, intent, q)
    ensures IsPath(edges, intent.source, intent.destination, q) && Cost(q) < MAX
  {
  }

  /** There is at most one answer. */
  lemma ReachableUnique(edges: set<Edge>, intent: Intent, p: seq<Edge>, q: seq<Edge>)
    requires Proper(edges) && Reachable(edges, intent, p) && Reachable(edges, intent, q)
    ensures p == q
  {
    hide Proper, Canonical;
    CanonicalUnique(edges, intent.source, intent.destination, p, q);
  }

  method EnabledNodes(snapshot: Snapshot, options: Options) returns (enabled: set<string>)
    ensures forall id :: id in enabled <==> Enabled(snapshot.nodes, options, id)
  {
    enabled := {};
    for i := 0 to |snapshot.nodes|
      invariant forall id :: id in enabled <==>
        id !in options.nodes && exists j :: 0 <= j < i && snapshot.nodes[j].id == id && snapshot.nodes[j].enabled
    {
      if snapshot.nodes[i].enabled && snapshot.nodes[i].id !in options.nodes {
        enabled := enabled + {snapshot.nodes[i].id};
      }
    }
  }

  method AdmissibleEdges(snapshot: Snapshot, intent: Intent, policy: string, options: Options, enabled: set<string>)
    returns (edges: set<Edge>)
    requires forall id :: id in enabled <==> Enabled(snapshot.nodes, options, id)
    ensures edges == RawEdges(snapshot, intent, policy, options)
  {
    edges := {};
    for i := 0 to |snapshot.links|
      invariant edges == RawEdges(snapshot.(links := snapshot.links[..i]), intent, policy, options)
    {
      var link := snapshot.links[i];
      EdgesGrow(snapshot, intent, policy, options, i);
      if link.id in options.links || link.source !in enabled || link.target !in enabled {
        continue;
      }
      if !Suitable(intent, options, link) {
        continue;
      }
      edges := edges + {Edge(link, EdgeCost(link, policy))};
    }
    assert snapshot.links[..|snapshot.links|] == snapshot.links;
  }

  lemma EdgesGrow(snapshot: Snapshot, intent: Intent, policy: string, options: Options, i: nat)
    requires i < |snapshot.links|
    ensures RawEdges(snapshot.(links := snapshot.links[..i + 1]), intent, policy, options) ==
            RawEdges(snapshot.(links := snapshot.links[..i]), intent, policy, options) +
            if Admissible(snapshot.nodes, intent, options, snapshot.links[i])
            then {Edge(snapshot.links[i], EdgeCost(snapshot.links[i], policy))} else {}
  {
    var a, b := snapshot.(links := snapshot.links[..i]), snapshot.(links := snapshot.links[..i + 1]);
    assert forall k :: 0 <= k < i ==> a.links[k] == b.links[k] == snapshot.links[k];
  }

  /** Follow the recorded links back from the target. */
  method Retrace(ghost edges: set<Edge>, source: string, ghost done: set<string>, dist: Dijkstra.Distances,
                 prev: Dijkstra.Previous, target: string)
    returns (p: seq<Edge>)
    requires Proper(edges) && Dijkstra.Labelled(edges, source, done, dist, prev) && target in dist && dist[target] < MAX
    ensures p == Dijkstra.Back(edges, source, done, dist, prev, target)
  {
    hide *;
    p := [];
    var node := target;
    while node != source
      invariant node in dist && dist[node] < MAX
      invariant Dijkstra.Back(edges, source, done, dist, prev, target)
                  == Dijkstra.Back(edges, source, done, dist, prev, node) + p
      decreases dist[node]
    {
      Dijkstra.BackStep(edges, source, done, dist, prev, node);
      p := [prev[node]] + p;
      node := prev[node].link.source;
    }
    Dijkstra.BackEnd(edges, source, done, dist, prev);
  }

  /** Add up the nodes, links, latency, loss, capacity and risk groups along a path. */
  method Describe(source: string, p: seq<Edge>, cost: int) returns (path: Path)
    requires cost == Cost(p)
    ensures path == PathOf(source, p)
  {
    hide PathOf, Latency, Loss, Capacity, RiskGroups, NodesOf, LinkIds, CombinedLoss, Wrap64;
    path := Path([source], [], 0, 0, MAX, cost, {});
    EmptyPath(source);
    assert p[..0] == [];
    for i := 0 to |p|
      invariant path == PathOf(source, p[..i]).(cost := cost)
    {
      var link := p[i].link;
      PathGrows(source, p, i);
      path := Path(path.nodes + [link.target], path.links + [link.id], Wrap64(path.latency + link.latency),
                   CombinedLoss(path.loss, link.loss),
                     if link.capacity < path.capacity then link.capacity else path.capacity, cost,
                   path.riskGroups + set g | g in link.riskGroups);
    }
    assert p[..|p|] == p;
    PathCost(source, p);
  }

  lemma EmptyPath(source: string)
    ensures PathOf(source, []) == Path([source], [], 0, 0, MAX, Cost([]), {})
  {
  }

  lemma PathCost(source: string, p: seq<Edge>)
    ensures PathOf(source, p).cost == Cost(p)
  {
  }

  lemma PathGrows(source: string, p: seq<Edge>, i: nat)
    requires i < |p|
    ensures var was, link := PathOf(source, p[..i]), p[i].link;
            PathOf(source, p[..i + 1]) ==
            Path(was.nodes + [link.target], was.links + [link.id], Wrap64(was.latency + link.latency),
                 CombinedLoss(was.loss, link.loss),
                   if link.capacity < was.capacity then link.capacity else was.capacity,
                 Cost(p[..i + 1]), was.riskGroups + set g | g in link.riskGroups)
  {
    hide CombinedLoss, Wrap64, RiskGroups, Cost;
    assert p[..i + 1][..i] == p[..i];
    RiskGroupsGrow(p, i);
  }

  lemma RiskGroupsGrow(p: seq<Edge>, i: nat)
    requires i < |p|
    ensures RiskGroups(p[..i + 1]) == RiskGroups(p[..i]) + set g | g in p[i].link.riskGroups
  {
    var a, b := p[..i], p[..i + 1];
    assert b[i] == p[i] && forall k :: 0 <= k < i ==> a[k] == b[k];
  }

  /** The constrained shortest path. It is found exactly when some admissible path costs less than
      the largest 64-bit integer and the canonical one of them respects the latency limit, which is
      applied only afterwards. */
  method Shortest(snapshot: Snapshot, intent: Intent, policy: string, options: Options)
    returns (r: Result<Path>, ghost p: seq<Edge>)
    requires snapshot.Valid() && Ranged(snapshot)
    ensures r.Success? ==>
              && intent.Valid()
              && Enabled(snapshot.nodes, options, intent.source) && Enabled(snapshot.nodes, options, intent.destination)
    ensures r.Success? ==>
              && Reachable(Edges(snapshot, intent, policy, options), intent, p)
              && !Exceeds(intent, p)
              && r.value == PathOf(intent.source, p)
    ensures r.Failure? ==>
              || !intent.Valid()
              || !Enabled(snapshot.nodes, options, intent.source)
              || !Enabled(snapshot.nodes, options, intent.destination)
              || (forall q :: IsPath(Edges(snapshot, intent, policy, options), intent.source, intent.destination, q) ==>
                      Cost(q) >= MAX)
              || (Reachable(Edges(snapshot, intent, policy, options), intent, p) && Exceeds(intent, p))
  {
    hide Snapshot.Valid, Ranged, RawEdges, Dijkstra.Priced, Dijkstra.Costed, Canonical, Proper, Dijkstra.Final,
         Dijkstra.Labelled, PathOf, Latency;
    p := [];
    if !intent.Valid() {
      return Failure("invalid intent"), p;
    }
    var enabled := EnabledNodes(snapshot, options);
    if intent.source !in enabled || intent.destination !in enabled {
      return Failure("endpoint disabled or absent"), p;
    }
    var raw := AdmissibleEdges(snapshot, intent, policy, options, enabled);
    ghost var edges := Edges(snapshot, intent, policy, options);
    EdgesProper(snapshot, intent, policy, options);
    EdgesCosted(snapshot, intent, policy, options);
    EdgesClosed(snapshot, intent, policy, options, enabled);
    var dist, prev;
    ghost var done;
    dist, prev, done := Dijkstra.Search(enabled, raw, intent.source, intent.destination);
    Dijkstra.FinalLabels(edges, intent.source, done, dist, prev, dist[intent.destination]);
    if dist[intent.destination] == MAX {
      Dijkstra.NothingBelow(edges, intent.source, done, dist, prev, intent.destination);
      return Failure("no path"), p;
    }
    var found := Retrace(edges, intent.source, done, dist, prev, intent.destination);
    Dijkstra.BackIsPath(edges, intent.source, done, dist, prev, intent.destination);
    Dijkstra.BackCanonical(edges, intent.source, done, dist, prev, dist[intent.destination], intent.destination);
    p := found;
    var path := Describe(intent.source, found, dist[intent.destination]);
    DescribedLatency(intent.source, found);
    if intent.maxLatency > 0 && path.latency > intent.maxLatency {
      return Failure("latency limit"), p;
    }
    return Success(path), p;
  }

  lemma DescribedLatency(source: string, p: seq<Edge>)
    ensures PathOf(source, p).latency == Latency(p)
  {
  }

  lemma EdgesClosed(snapshot: Snapshot, intent: Intent, policy: string, options: Options, enabled: set<string>)
    requires forall id :: id in enabled <==> Enabled(snapshot.nodes, options, id)
    ensures Dijkstra.Closed(RawEdges(snapshot, intent, policy, options), enabled)
  {
  }

  /** The result depends on the set of admissible links only: neither their order in the snapshot
      nor the order in which equal queue entries come out can change it. */
  lemma ShortestDeterministic(edges: set<Edge>, intent: Intent, p: seq<Edge>, q: seq<Edge>)
    requires Proper(edges) && Reachable(edges, intent, p) && Reachable(edges, intent, q)
    ensures PathOf(intent.source, p) == PathOf(intent.source, q)
  {
    ReachableUnique(edges, intent, p, q);
  }
}
