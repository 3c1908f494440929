/** Control-plane validation of a plan, and why every plan the planner builds passes it. */
module Validation {
  import opened Basics
  import opened Names
  import opened Fabric
  import opened Graph
  import opened Policy
  import opened Disjoint
  import opened Planner

  function NodeMap(nodes: seq<Node>): map<string, Node> {
    if nodes == [] then map[] else
      var last := nodes[|nodes| - 1];
      NodeMap(nodes[..|nodes| - 1])[last.id := last]
  }

  ghost predicate UsableEdge(snapshot: Snapshot, at: Time, a: string, b: string) {
    exists i :: 0 <= i < |snapshot.links| && snapshot.links[i].source == a && snapshot.links[i].target == b
                && snapshot.links[i].Usable(at, 0)
  }

  ghost predicate RouteValid(snapshot: Snapshot, at: Time, address: Addressing, parses: string -> bool, route: Route) {
    var nodes := NodeMap(snapshot.nodes);
    && route.device in nodes
    && route.nextHopNode in nodes && nodes[route.nextHopNode].enabled
    && address(route.device, route.nextHopNode) == Some(route.nextHop)
    && UsableEdge(snapshot, at, route.device, route.nextHopNode)
    && parses(route.prefix)
  }

  ghost predicate LoopFree(path: Path) {
    forall i, j :: 0 <= i < j < |path.nodes| ==> path.nodes[i] != path.nodes[j]
  }

  /** A plan that may be handed to the devices. */
  ghost predicate Acceptable(plan: Plan, snapshot: Snapshot, at: Time, address: Addressing, parses: string -> bool) {
    && plan.id != "" && plan.version == snapshot.version && plan.expiresAt > at
    && (forall i :: 0 <= i < |plan.routes| ==> RouteValid(snapshot, at, address, parses, plan.routes[i]))
    && KeysDistinct(plan.routes, RouteKey)
    && (forall id :: id in plan.paths ==> |plan.paths[id]| > 0)
    && (forall id, j :: id in plan.paths && 0 <= j < |plan.paths[id]| ==> LoopFree(plan.paths[id][j]))
  }

  method UsableEdges(snapshot: Snapshot, at: Time) returns (edges: set<(string, string)>)
    ensures forall a, b :: (a, b) in edges <==> UsableEdge(snapshot, at, a, b)
  {
    edges := {};
    for i := 0 to |snapshot.links|
      invariant forall a, b :: (a, b) in edges <==>
        exists k :: 0 <= k < i && snapshot.links[k].source == a && snapshot.links[k].target == b
            && snapshot.links[k].Usable(at, 0)
    {
      if snapshot.links[i].Usable(at, 0) {
        edges := edges + {(snapshot.links[i].source, snapshot.links[i].target)};
      }
    }
  }

  method CheckLoop(path: Path) returns (ok: bool)
    ensures ok <==> LoopFree(path)
  {
    var visited := {};
    for i := 0 to |path.nodes|
      invariant forall k, l :: 0 <= k < l < i ==> path.nodes[k] != path.nodes[l]
      invariant forall n :: n in visited <==> n in path.nodes[..i]
    {
      if path.nodes[i] in visited {
        return false;
      }
      visited := visited + {path.nodes[i]};
    }
    return true;
  }

  method CheckRoutes(plan: Plan, snapshot: Snapshot, at: Time, address: Addressing, parses: string -> bool)
    returns (ok: bool)
    ensures ok <==>
            && (forall i :: 0 <= i < |plan.routes| ==> RouteValid(snapshot, at, address, parses, plan.routes[i]))
            && KeysDistinct(plan.routes, RouteKey)
  {
    hide UsableEdge;
    var nodes := NodeMap(snapshot.nodes);
    var edges := UsableEdges(snapshot, at);
    var seen := {};
    for i := 0 to |plan.routes|
      invariant forall k :: 0 <= k < i ==> RouteValid(snapshot, at, address, parses, plan.routes[k])
      invariant forall k, l :: 0 <= k < l < i ==> RouteKey(plan.routes[k]) != RouteKey(plan.routes[l])
      invariant forall key :: key in seen <==> exists k :: 0 <= k < i && RouteKey(plan.routes[k]) == key
    {
      var route := plan.routes[i];
      if route.device !in nodes || route.nextHopNode !in nodes || !nodes[route.nextHopNode].enabled {
        return false;
      }
      if address(route.device, route.nextHopNode) != Some(route.nextHop) {
        return false;
      }
      if (route.device, route.nextHopNode) !in edges || !parses(route.prefix) {
        return false;
      }
      if RouteKey(route) in seen {
        return false;
      }
      seen := seen + {RouteKey(route)};
    }
    return true;
  }

  /** The validator accepts exactly the acceptable plans. */
  method Plan(plan: Plan, snapshot: Snapshot, at: Time, address: Addressing, parses: string -> bool) returns (ok: bool)
    ensures ok <==> Acceptable(plan, snapshot, at, address, parses)
  {
    if plan.id == "" || plan.version != snapshot.version || plan.expiresAt <= at {
      return false;
    }
    ok := CheckRoutes(plan, snapshot, at, address, parses);
    if !ok {
      return false;
    }
    var ids := plan.paths.Keys;
    while ids != {}
      invariant ids <= plan.paths.Keys
      invariant forall id :: id in plan.paths && id !in ids ==> |plan.paths[id]| > 0
      invariant forall id, j :: id in plan.paths && id !in ids && 0 <= j < |plan.paths[id]| ==>
                    LoopFree(plan.paths[id][j])
      decreases |ids|
    {
      var id :| id in ids;
      var paths := plan.paths[id];
      if |paths| == 0 {
        return false;
      }
      for j := 0 to |paths|
        invariant forall k :: 0 <= k < j ==> LoopFree(paths[k])
      {
        var free := CheckLoop(paths[j]);
        if !free {
          return false;
        }
      }
      ids := ids - {id};
    }
  }

  // ---- plans built by the planner ------------------------------------------------------------

  ghost predicate IsHop(planned: Planned, address: Addressing, r: Route, j: nat, i: nat) {
    && j < |planned.paths| && i < |planned.paths[j]|
    && r == HopRoute(address, planned.intent, PathsOf(planned.intent.source, planned.paths), j, i)
  }

  lemma {:induction false} AllRoutesHop(planned: Planned, address: Addressing, m: nat, r: Route)
    returns (j: nat, i: nat)
    requires m <= |planned.paths|
    requires r in AllRoutes(address, planned.intent, PathsOf(planned.intent.source, planned.paths), m)
    ensures j < m && IsHop(planned, address, r, j, i)
    decreases m
  {
    hide HopRoute, PathRoutes, Latency, Loss, Capacity, RiskGroups, Cost, LinkIds;
    var paths := PathsOf(planned.intent.source, planned.paths);
    var hops := PathRoutes(address, planned.intent, paths, m - 1, |paths[m - 1].nodes| - 1);
    if r in hops {
      j := m - 1;
      i :| 0 <= i < |hops| && hops[i] == r;
    } else {
      j, i := AllRoutesHop(planned, address, m - 1, r);
    }
  }

  lemma {:induction false} EmittedHop(planned: seq<Planned>, address: Addressing, r: Route)
    returns (k: nat, j: nat, i: nat)
    requires r in Emitted(address, planned)
    ensures k < |planned| && IsHop(planned[k], address, r, j, i)
  {
    var last := |planned| - 1;
    if r in RoutesFor(address, planned[last]) {
      k := last;
      j, i := AllRoutesHop(planned[last], address, |planned[last].paths|, r);
    } else {
      k, j, i := EmittedHop(planned[..last], address, r);
    }
  }

  /** The link behind a hop. */
  lemma HopEdge(planned: Planned, config: Config, now: Time, address: Addressing, r: Route, j: nat, i: nat)
    requires WellPlanned(planned, config, now) && IsHop(planned, address, r, j, i)
    ensures j < |planned.paths| && i < |planned.paths[j]|
    ensures planned.paths[j][i] in Allowed(planned.residual, planned.intent, config, now)
    ensures r.device == planned.paths[j][i].link.source && r.nextHopNode == planned.paths[j][i].link.target
    ensures r.prefix == planned.intent.prefix
  {
    hide Answer, Distinct, Allowed, Exceeds, Cost, Simple;
    PathEdges(Allowed(planned.residual, planned.intent, config, now), planned.intent.source, planned.intent.destination,
              planned.paths[j], i);
  }

  /** Routes of one intent never repeat a neighbouring pair of nodes. */
  lemma {:induction false} RoutesForDistinct(planned: Planned, config: Config, now: Time, address: Addressing, m: nat)
    requires WellPlanned(planned, config, now) && m <= |planned.paths|
    ensures KeysDistinct(AllRoutes(address, planned.intent, PathsOf(planned.intent.source, planned.paths), m), RouteKey)
    decreases m
  {
    hide WellPlanned, PathsOf, PathRoutes, HopRoute, RouteKey, KeysDistinct, Latency, Loss, Capacity, RiskGroups, Cost,
         NodesOf, LinkIds;
    if m == 0 {
      NothingRepeats(RouteKey);
    } else {
      var intent, paths := planned.intent, PathsOf(planned.intent.source, planned.paths);
      RoutesForDistinct(planned, config, now, address, m - 1);
      var before := AllRoutes(address, intent, paths, m - 1);
      var hops := PathRoutes(address, intent, paths, m - 1, |paths[m - 1].nodes| - 1);
      HopsDistinct(planned, config, now, address, m - 1);
      forall a, b | 0 <= a < |before| && 0 <= b < |hops| ensures RouteKey(before[a]) != RouteKey(hops[b]) {
        LaterHopApart(planned, config, now, address, before[a], hops[b], m - 1, b);
      }
      ConcatDistinct(before, hops, RouteKey);
    }
  }

  lemma LaterHopApart(planned: Planned, config: Config, now: Time, address: Addressing, r: Route, s: Route, l: nat,
                      k: nat)
    requires WellPlanned(planned, config, now) && l <= |planned.paths|
    requires r in AllRoutes(address, planned.intent, PathsOf(planned.intent.source, planned.paths), l)
    requires IsHop(planned, address, s, l, k)
    ensures RouteKey(r) != RouteKey(s)
  {
    hide WellPlanned, IsHop, AllRoutes, PathsOf;
    var j, i := AllRoutesHop(planned, address, l, r);
    HopsApart(planned, config, now, address, r, j, i, s, l, k);
  }

  lemma NothingRepeats<T, K>(key: T -> K)
    ensures KeysDistinct([], key)
  {
  }

  lemma ConcatDistinct<T, K>(s: seq<T>, t: seq<T>, key: T -> K)
    requires KeysDistinct(s, key) && KeysDistinct(t, key)
    requires forall a, b :: 0 <= a < |s| && 0 <= b < |t| ==> key(s[a]) != key(t[b])
    ensures KeysDistinct(s + t, key)
  {
  }

  lemma HopsDistinct(planned: Planned, config: Config, now: Time, address: Addressing, j: nat)
    requires WellPlanned(planned, config, now) && j < |planned.paths|
    ensures var paths := PathsOf(planned.intent.source, planned.paths);
            KeysDistinct(PathRoutes(address, planned.intent, paths, j, |paths[j].nodes| - 1), RouteKey)
  {
    hide WellPlanned;
    PathSimple(planned, config, now, j);
  }

  lemma PathSimple(planned: Planned, config: Config, now: Time, j: nat)
    requires WellPlanned(planned, config, now) && j < |planned.paths|
    ensures Simple(planned.intent.source, planned.paths[j])
  {
  }

  lemma HopsApart(planned: Planned, config: Config, now: Time, address: Addressing,
                  r: Route, j: nat, i: nat, s: Route, l: nat, k: nat)
    requires WellPlanned(planned, config, now) && j < l
    requires IsHop(planned, address, r, j, i) && IsHop(planned, address, s, l, k)
    ensures r.device != s.device || r.nextHopNode != s.nextHopNode
  {
    hide Answer, Exceeds, Cost, Allowed, IsPath, Simple;
    HopEdge(planned, config, now, address, r, j, i);
    HopEdge(planned, config, now, address, s, l, k);
    var path := PathOf(planned.intent.source, planned.paths[j]);
    assert Apart(path, planned.paths[l], config.nodeDisjoint);
    assert path.nodes[i] == r.device && path.nodes[i + 1] == r.nextHopNode;
  }

  ghost predicate PrefixesDistinct(intents: seq<Intent>) {
    forall i, j :: 0 <= i < j < |intents| ==> intents[i].prefix != intents[j].prefix
  }

  ghost predicate AllWellPlanned(planned: seq<Planned>, config: Config, now: Time) {
    forall k :: 0 <= k < |planned| ==> WellPlanned(planned[k], config, now)
  }

  lemma {:induction false} EmittedDistinct(planned: seq<Planned>, config: Config, now: Time, address: Addressing)
    requires AllWellPlanned(planned, config, now) && PrefixesDistinct(IntentsOf(planned))
    ensures KeysDistinct(Emitted(address, planned), RouteKey)
  {
    hide WellPlanned, AllRoutes;
    if planned != [] {
      var last := |planned| - 1;
      var front := planned[..last];
      EmittedDistinct(front, config, now, address);
      RoutesForDistinct(planned[last], config, now, address, |planned[last].paths|);
      var before, after := Emitted(address, front), RoutesFor(address, planned[last]);
      forall a, b | 0 <= a < |before| && 0 <= b < |after| ensures RouteKey(before[a]) != RouteKey(after[b]) {
        var k, j, i := EmittedHop(front, address, before[a]);
        HopEdge(front[k], config, now, address, before[a], j, i);
        var j', i' := AllRoutesHop(planned[last], address, |planned[last].paths|, after[b]);
        HopEdge(planned[last], config, now, address, after[b], j', i');
        assert IntentsOf(planned)[k] == front[k].intent;
      }
    }
  }

  lemma {:induction false} NodeMapHas(nodes: seq<Node>, i: nat)
    requires i < |nodes| && forall k, l :: 0 <= k < l < |nodes| ==> nodes[k].id != nodes[l].id
    ensures nodes[i].id in NodeMap(nodes) && NodeMap(nodes)[nodes[i].id] == nodes[i]
  {
    var last := |nodes| - 1;
    if i < last {
      NodeMapHas(nodes[..last], i);
    }
  }

  /** A link the planner may use is usable for the validator as well, for as long as it lasts. */
  lemma AllowedIsUsable(snapshot: Snapshot, planned: Planned, config: Config, now: Time, e: Edge, at: Time)
    requires snapshot.Valid() && ResidualOf(snapshot, planned.residual)
             && e in Allowed(planned.residual, planned.intent, config, now)
    requires now <= at && EndsAfter(e.link, at + 1)
    ensures UsableEdge(snapshot, at, e.link.source, e.link.target)
    ensures e.link.source in NodeMap(snapshot.nodes) && e.link.target in NodeMap(snapshot.nodes)
    ensures NodeMap(snapshot.nodes)[e.link.target].enabled
  {
    EdgeIndex(planned.residual, planned.intent, config, now, e);
    var i :| 0 <= i < |planned.residual.links| && planned.residual.links[i] == e.link;
    assert snapshot.links[i].Usable(at, 0);
    var a :| 0 <= a < |snapshot.nodes| && snapshot.nodes[a].id == e.link.source && snapshot.nodes[a].enabled;
    var b :| 0 <= b < |snapshot.nodes| && snapshot.nodes[b].id == e.link.target && snapshot.nodes[b].enabled;
    NodeMapHas(snapshot.nodes, a);
    NodeMapHas(snapshot.nodes, b);
  }

  lemma HopValid(snapshot: Snapshot, planned: Planned, config: Config, now: Time, address: Addressing,
                 parses: string -> bool, r: Route, j: nat, i: nat, expires: Time, at: Time)
    requires snapshot.Valid() && PlannedWell(snapshot, planned, config, now, address, parses)
             && IsHop(planned, address, r, j, i)
    requires Outlives(planned.paths, expires) && now <= at < expires
    ensures RouteValid(snapshot, at, address, parses, r)
  {
    hide Snapshot.Valid, WellPlanned, Successive, ResidualOf, Allowed, NodeMap, UsableEdge;
    HopEdge(planned, config, now, address, r, j, i);
    AllowedIsUsable(snapshot, planned, config, now, planned.paths[j][i], at);
    var nodes := PathsOf(planned.intent.source, planned.paths)[j].nodes;
    assert address(nodes[i], nodes[i + 1]).Some?;
  }

  lemma RoutesStayValid(snapshot: Snapshot, plan: Plan, planned: seq<Planned>, ordered: seq<Intent>, config: Config,
                        now: Time, address: Addressing, parses: string -> bool, at: Time, n: nat)
    requires snapshot.Valid() && Describes(snapshot, plan, planned, address) && now <= at < plan.expiresAt
    requires Progress(snapshot, planned, ordered, config, now, address, parses, plan.expiresAt) && n < |plan.routes|
    ensures RouteValid(snapshot, at, address, parses, plan.routes[n])
  {
    hide Snapshot.Valid, PlannedWell, RouteValid, Emitted, Outlives, SortBy, Recorded, Nearest, Remaining, IsHop;
    var emitted := Emitted(address, planned);
    assert plan.routes[n] in multiset(plan.routes);
    assert plan.routes[n] in emitted;
    var k, j, i := EmittedHop(planned, address, plan.routes[n]);
    HopValid(snapshot, planned[k], config, now, address, parses, plan.routes[n], j, i, plan.expiresAt, at);
  }

  /** A plan that is acceptable when it is built stays so until it expires. */
  lemma StaysAcceptable(snapshot: Snapshot, plan: Plan, planned: seq<Planned>, ordered: seq<Intent>, config: Config,
                        now: Time, address: Addressing, parses: string -> bool, at: Time)
    requires snapshot.Valid() && Describes(snapshot, plan, planned, address) && now <= at < plan.expiresAt
    requires Progress(snapshot, planned, ordered, config, now, address, parses, plan.expiresAt)
    requires Acceptable(plan, snapshot, now, address, parses)
    ensures Acceptable(plan, snapshot, at, address, parses)
  {
    hide Snapshot.Valid, RouteValid, Describes, Progress, LoopFree, KeysDistinct;
    forall n | 0 <= n < |plan.routes| ensures RouteValid(snapshot, at, address, parses, plan.routes[n]) {
      RoutesStayValid(snapshot, plan, planned, ordered, config, now, address, parses, at, n);
    }
  }

  /** Every plan the planner returns for intents with distinct prefixes passes validation on the same topology,
      from the instant it is built until it expires. */
  lemma BuiltPlansAreAcceptable(snapshot: Snapshot, plan: Plan, planned: seq<Planned>, ordered: seq<Intent>,
                                config: Config, now: Time, address: Addressing, parses: string -> bool, at: Time)
    requires snapshot.Valid() && Describes(snapshot, plan, planned, address) && now <= at < plan.expiresAt
    requires Progress(snapshot, planned, ordered, config, now, address, parses, plan.expiresAt)
    requires PrefixesDistinct(plan.intents)
    ensures Acceptable(plan, snapshot, at, address, parses)
  {
    hide Snapshot.Valid, WellPlanned, Successive, ResidualOf, Addressed, RouteValid, Emitted, Outlives, SortBy,
         Recorded, Nearest, Remaining;
    EmittedDistinct(planned, config, now, address);
    SortKeysDistinct(Emitted(address, planned), RouteLess, RouteKey);
    forall n | 0 <= n < |plan.routes| ensures RouteValid(snapshot, at, address, parses, plan.routes[n]) {
      RoutesStayValid(snapshot, plan, planned, ordered, config, now, address, parses, at, n);
    }
    forall id | id in plan.paths
      ensures |plan.paths[id]| > 0 && forall j :: 0 <= j < |plan.paths[id]| ==> LoopFree(plan.paths[id][j])
    {
      var k := RecordedPaths(plan.paths, planned, id);
      PlannedFacts(snapshot, planned[k], config, now);
      forall j | 0 <= j < |planned[k].paths| ensures Simple(planned[k].intent.source, planned[k].paths[j]) {
        PathSimple(planned[k], config, now, j);
      }
    }
  }

  /** A plan is for the prefixes it was asked for. */
  lemma PlannedPrefixes(snapshot: Snapshot, intents: seq<Intent>, plan: Plan, planned: seq<Planned>, config: Config,
                        at: Time, address: Addressing, parses: string -> bool)
    requires |planned| == |intents| && PrefixesDistinct(intents)
    requires Progress(snapshot, planned, SortBy(intents, IntentLess), config, at, address, parses, plan.expiresAt)
    requires Describes(snapshot, plan, planned, address)
    ensures PrefixesDistinct(plan.intents)
  {
    hide Snapshot.Valid, SortBy, PlannedWell;
    SortKeysDistinct(intents, IntentLess, (i: Intent) => i.prefix);
  }
}
