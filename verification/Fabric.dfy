/** The shared records of the controller: nodes, links, intents, paths, routes and plans. */
module Fabric {
  import opened Names

  datatype Result<+T> = Success(value: T) | Failure(error: string)

  const MAX: int := 0x7fff_ffff_ffff_ffff             // math.MaxInt64
  const MODULUS: int := 0x1_0000_0000_0000_0000       // unsigned 64-bit counters wrap here

  /** Instants and durations in nanoseconds; 0 is the zero value of an instant. */
  type Time = nat

  datatype Node = Node(id: string, enabled: bool)

  /** A directed link. A physical link is two of them. */
  datatype Link = Link(id: string, source: string, target: string, adminUp: bool, operationalUp: bool,
                       acquisition: string, latency: int, capacity: int, loss: int, reliability: int,
                       riskGroups: seq<string>, telemetryAt: Time, validUntil: Time, availabilityEnd: Time)
  {
    predicate Usable(at: Time, maxTelemetryAge: Time) {
      && adminUp && operationalUp && capacity > 0 && latency >= 0
      && (acquisition == "" || acquisition == "locked" || acquisition == "degraded")
      && (validUntil != 0 ==> at < validUntil)
      && (availabilityEnd != 0 ==> at < availabilityEnd)
      && (maxTelemetryAge > 0 && telemetryAt != 0 ==> at - telemetryAt <= maxTelemetryAge)
    }
  }

  datatype Snapshot = Snapshot(version: nat, validUntil: Time, nodes: seq<Node>, links: seq<Link>)
  {
    predicate HasNode(id: string) {
      exists i :: 0 <= i < |nodes| && nodes[i].id == id
    }

    /** What validation of a topology snapshot accepts. */
    predicate Valid() {
      && version > 0
      && (forall i :: 0 <= i < |nodes| ==> nodes[i].id != "")
      && (forall i, j :: 0 <= i < j < |nodes| ==> nodes[i].id != nodes[j].id)
      && (forall i :: 0 <= i < |links| ==> ValidLink(links[i]))
      && (forall i, j :: 0 <= i < j < |links| ==> links[i].id != links[j].id)
    }

    predicate ValidLink(link: Link) {
      && link.id != "" && link.source != "" && link.target != "" && link.source != link.target
      && HasNode(link.source) && HasNode(link.target)
      && (forall i :: 0 <= i < |link.riskGroups| ==> link.riskGroups[i] != "")
      && (forall i, j :: 0 <= i < j < |link.riskGroups| ==> link.riskGroups[i] != link.riskGroups[j])
    }
  }

  datatype Intent = Intent(id: string, source: string, destination: string, gateways: seq<string>, prefix: string,
                           policy: string, maxLatency: int, minCapacity: int, demand: int, maxLoss: int,
                           requiredReliability: int, redundancy: int, priority: int)
  {
    predicate Valid() {
      && id != "" && source != "" && prefix != ""
      && (destination != "" || |gateways| > 0)
      && 0 <= redundancy <= 2 && minCapacity >= 0 && demand >= 0
    }
  }

  datatype Path = Path(nodes: seq<string>, links: seq<string>, latency: int, loss: int, capacity: int, cost: int,
                       riskGroups: set<string>)

  datatype Route = Route(device: string, prefix: string, nextHop: string, nextHopNode: string, metric: int,
                         intent: string, role: string)

  datatype Plan = Plan(id: string, version: nat, expiresAt: Time, intents: seq<Intent>,
                       paths: map<string, seq<Path>>, routes: seq<Route>)

  /** The value of a 64-bit signed result after wrap-around. */
  function Wrap64(n: int): int {
    (n + 0x8000_0000_0000_0000) % MODULUS - 0x8000_0000_0000_0000
  }

  predicate Int64(n: int) {
    -MAX - 1 <= n <= MAX
  }

  /** Integer division as Go does it, towards zero. */
  function Quotient(n: int, d: int): int
    requires d > 0
  {
    if n >= 0 then n / d else -(-n / d)
  }

  function RouteKey(r: Route): (string, string, int, string) {
    (r.device, r.prefix, r.metric, r.nextHopNode)
  }

  /** The order in which routes are listed. */
  predicate RouteLess(a: Route, b: Route) {
    if a.device != b.device then Less(a.device, b.device)
    else if a.prefix != b.prefix then Less(a.prefix, b.prefix)
    else if a.metric != b.metric then a.metric < b.metric
    else Less(a.nextHopNode, b.nextHopNode)
  }

  function SortRoutes(routes: seq<Route>): (r: seq<Route>)
    ensures multiset(r) == multiset(routes) && |r| == |routes|
  {
    SortBy(routes, RouteLess)
  }

  lemma RouteLessAsymmetric(a: Route, b: Route)
    ensures RouteLess(a, b) ==> !RouteLess(b, a)
  {
    LessAsymmetric(a.device, b.device);
    LessAsymmetric(a.prefix, b.prefix);
    LessAsymmetric(a.nextHopNode, b.nextHopNode);
  }

  lemma RouteLessTransitive(a: Route, b: Route, c: Route)
    ensures !RouteLess(a, b) && !RouteLess(b, c) ==> !RouteLess(a, c)
  {
    LessWeak(a.device, b.device, c.device);
    LessWeak(a.prefix, b.prefix, c.prefix);
    LessWeak(a.nextHopNode, b.nextHopNode, c.nextHopNode);
    LessConnected(a.device, b.device);
    LessConnected(b.device, c.device);
    LessConnected(a.prefix, b.prefix);
    LessConnected(b.prefix, c.prefix);
    LessAsymmetric(a.device, b.device);
    LessAsymmetric(a.device, c.device);
    LessAsymmetric(a.prefix, b.prefix);
    LessAsymmetric(a.prefix, c.prefix);
  }

  lemma RouteOrder()
    ensures WeakOrder(RouteLess)
  {
    forall a, b ensures RouteLess(a, b) ==> !RouteLess(b, a) {
      RouteLessAsymmetric(a, b);
    }
    forall a, b, c ensures !RouteLess(a, b) && !RouteLess(b, c) ==> !RouteLess(a, c) {
      RouteLessTransitive(a, b, c);
    }
  }

  /** Listing routes in order a second time changes nothing. */
  lemma SortRoutesIdempotent(routes: seq<Route>)
    ensures SortRoutes(SortRoutes(routes)) == SortRoutes(routes)
  {
    RouteOrder();
    SortAscending(routes, RouteLess);
    SortIdempotent(SortBy(routes, RouteLess), RouteLess);
  }
}
