/** The forwarding probe: follow the routes that devices report, hop by hop, and see whether they
    lead where the plan says. */
module Probe {
  import opened Basics
  import opened Names
  import opened Fabric
  import opened Graph
  import opened Policy
  import opened Planner
  import opened Validation

  datatype State = State(healthy: bool, routes: seq<Route>)

  // ---- cheapest paths ------------------------------------------------------------------------

  /** Replacing the front of a path by another way to the same node. */
  lemma {:induction false} Splice(edges: set<Edge>, source: string, target: string, p: seq<Edge>, i: nat, r: seq<Edge>)
    requires IsPath(edges, source, target, p) && i <= |p| && IsPath(edges, source, NodesOf(source, p)[i], r)
    ensures IsPath(edges, source, target, r + p[i..])
    ensures Cost(r + p[i..]) == Cost(r) + Cost(p) - Cost(p[..i])
    decreases |p|
  {
    EndsAt(edges, source, target, p);
    if i == |p| {
      assert r + p[i..] == r && p[..i] == p;
    } else {
      var last, front := p[|p| - 1], p[..|p| - 1];
      Splice(edges, source, last.link.source, front, i, r);
      var whole := r + p[i..];
      assert whole[..|whole| - 1] == r + front[i..] && whole[|whole| - 1] == last;
      assert front[..i] == p[..i];
    }
  }

  lemma {:induction false} PrefixIsPath(edges: set<Edge>, source: string, target: string, p: seq<Edge>, i: nat)
    requires IsPath(edges, source, target, p) && i <= |p|
    ensures IsPath(edges, source, NodesOf(source, p)[i], p[..i])
    decreases |p|
  {
    EndsAt(edges, source, target, p);
    if i == |p| {
      assert p[..i] == p;
    } else {
      PrefixIsPath(edges, source, p[|p| - 1].link.source, p[..|p| - 1], i);
      assert p[..|p| - 1][..i] == p[..i];
    }
  }

  /** Every beginning of a cheapest path is a cheapest path. */
  lemma PrefixCheapest(edges: set<Edge>, source: string, target: string, p: seq<Edge>, i: nat)
    requires Cheapest(edges, source, target, p) && i <= |p|
    ensures Cheapest(edges, source, NodesOf(source, p)[i], p[..i])
  {
    PrefixIsPath(edges, source, target, p, i);
    forall r | IsPath(edges, source, NodesOf(source, p)[i], r) ensures Cost(p[..i]) <= Cost(r) {
      Splice(edges, source, target, p, i, r);
    }
  }

  // ---- the best routes of one intent ---------------------------------------------------------

  /** `u` is node `i` of path `j`, and path `j` has the best metric. */
  ghost predicate OnBest(planned: Planned, u: string, j: nat, i: nat) {
    && j < |planned.paths| && i <= |planned.paths[j]|
    && Metric(planned.intent, PathsOf(planned.intent.source, planned.paths), j) == 100
    && NodesOf(planned.intent.source, planned.paths[j])[i] == u
  }

  /** The cost at which path `j` reaches its node `i`. */
  ghost function Progressed(planned: Planned, j: nat, i: nat): int {
    if j < |planned.paths| && i <= |planned.paths[j]| then Cost(planned.paths[j][..i]) else 0
  }

  lemma BestIsCheapest(planned: Planned, config: Config, now: Time, j: nat)
    requires WellPlanned(planned, config, now) && j < |planned.paths|
    requires Metric(planned.intent, PathsOf(planned.intent.source, planned.paths), j) == 100
    ensures Cheapest(Allowed(planned.residual, planned.intent, config, now), planned.intent.source,
                     planned.intent.destination, planned.paths[j])
  {
    hide Allowed, Distinct, Exceeds, Simple;
    var paths := PathsOf(planned.intent.source, planned.paths);
    assert paths[j].cost == Cost(planned.paths[j]) && paths[0].cost == Cost(planned.paths[0]);
  }

  /** All best paths agree on the cost at which they reach a node. */
  lemma SameProgress(planned: Planned, config: Config, now: Time, u: string, j: nat, i: nat, j': nat, i': nat)
    requires WellPlanned(planned, config, now) && OnBest(planned, u, j, i) && OnBest(planned, u, j', i')
    ensures Progressed(planned, j, i) == Progressed(planned, j', i')
  {
    hide WellPlanned, Allowed, IsPath;
    var edges, intent := Allowed(planned.residual, planned.intent, config, now), planned.intent;
    BestIsCheapest(planned, config, now, j);
    BestIsCheapest(planned, config, now, j');
    PrefixCheapest(edges, intent.source, intent.destination, planned.paths[j], i);
    PrefixCheapest(edges, intent.source, intent.destination, planned.paths[j'], i');
  }

  /** A hop of a best path advances the cost. */
  lemma HopAdvances(planned: Planned, config: Config, now: Time, address: Addressing, r: Route, j: nat, i: nat)
    requires planned.residual.Valid() && Ranged(planned.residual)
    requires WellPlanned(planned, config, now) && IsHop(planned, address, r, j, i) && r.metric == 100
    ensures OnBest(planned, r.device, j, i) && OnBest(planned, r.nextHopNode, j, i + 1)
    ensures Progressed(planned, j, i) < Progressed(planned, j, i + 1)
  {
    hide Answer, Distinct, Exceeds, Simple, Edges, IsPath, Snapshot.Valid, Ranged;
    var intent, p := planned.intent, planned.paths[j];
    var edges := Allowed(planned.residual, intent, config, now);
    HopEdge(planned, config, now, address, r, j, i);
    EdgesProper(planned.residual, intent, PolicyName(intent.policy), Free(config, now));
    assert p[i] in edges && p[i].cost >= 1;
    assert p[..i + 1][..i] == p[..i];
  }

  /** Away from the destination a best path goes on, with a route of metric 100. */
  lemma BestContinues(planned: Planned, config: Config, now: Time, address: Addressing, u: string, j: nat, i: nat)
    returns (r: Route)
    requires WellPlanned(planned, config, now) && OnBest(planned, u, j, i) && u != planned.intent.destination
    ensures IsHop(planned, address, r, j, i) && r.device == u && r.metric == 100 && r.prefix == planned.intent.prefix
  {
    hide Answer, Distinct, Exceeds, Simple, Allowed, IsPath;
    EndsAt(Allowed(planned.residual, planned.intent, config, now), planned.intent.source, planned.intent.destination,
           planned.paths[j]);
    r := HopRoute(address, planned.intent, PathsOf(planned.intent.source, planned.paths), j, i);
  }

  /** Every hop route is emitted. */
  lemma {:induction false} HopEmitted(planned: Planned, address: Addressing, r: Route, j: nat, i: nat, m: nat)
    requires IsHop(planned, address, r, j, i) && j < m <= |planned.paths|
    ensures r in AllRoutes(address, planned.intent, PathsOf(planned.intent.source, planned.paths), m)
    decreases m
  {
    hide HopRoute, PathRoutes, Latency, Loss, Capacity, RiskGroups, Cost, LinkIds;
    var paths := PathsOf(planned.intent.source, planned.paths);
    var hops := PathRoutes(address, planned.intent, paths, m - 1, |paths[m - 1].nodes| - 1);
    if j == m - 1 {
      assert hops[i] == r;
    } else {
      HopEmitted(planned, address, r, j, i, m - 1);
    }
  }

  lemma {:induction false} RouteEmitted(planned: seq<Planned>, address: Addressing, k: nat, r: Route)
    requires k < |planned| && r in RoutesFor(address, planned[k])
    ensures r in Emitted(address, planned)
  {
    if k < |planned| - 1 {
      RouteEmitted(planned[..|planned| - 1], address, k, r);
    }
  }

  // ---- the walk ------------------------------------------------------------------------------

  /** A route the device may use for the prefix: none of its routes for it has a smaller metric. */
  ghost predicate Preferred(state: State, prefix: string, r: Route) {
    && r in state.routes && r.prefix == prefix
    && forall s :: s in state.routes && s.prefix == prefix ==> r.metric <= s.metric
  }

  /** The plan has a route for the device. */
  ghost predicate Carries(plan: Plan, u: string) {
    exists r :: r in plan.routes && r.device == u
  }

  /** Every device that the plan has routes for is up and holds exactly these. Other devices may be in any state. */
  ghost predicate Installed(plan: Plan, states: map<string, State>) {
    forall u :: Carries(plan, u) ==>
      && u in states && states[u].healthy
      && forall r :: r in states[u].routes <==> r in plan.routes && r.device == u
  }

  /** What the planner established about an installed plan. */
  ghost predicate Rolled(snapshot: Snapshot, plan: Plan, planned: seq<Planned>, ordered: seq<Intent>, config: Config,
                         now: Time, address: Addressing, parses: string -> bool)
  {
    && snapshot.Valid() && Ranged(snapshot) && Describes(snapshot, plan, planned, address)
    && Progress(snapshot, planned, ordered, config, now, address, parses, plan.expiresAt)
    && PrefixesDistinct(plan.intents)
  }

  lemma RolledFacts(snapshot: Snapshot, plan: Plan, planned: seq<Planned>, ordered: seq<Intent>, config: Config,
                    now: Time, address: Addressing, parses: string -> bool, k: nat)
    requires Rolled(snapshot, plan, planned, ordered, config, now, address, parses) && k < |planned|
    ensures WellPlanned(planned[k], config, now) && ResidualOf(snapshot, planned[k].residual)
    ensures snapshot.Valid() && planned[k].residual.Valid() && Ranged(planned[k].residual)
            && plan.intents[k] == planned[k].intent
    ensures forall r :: r in plan.routes <==> r in Emitted(address, planned)
    ensures Outlives(planned[k].paths, plan.expiresAt)
  {
    hide Snapshot.Valid, Ranged, WellPlanned, ResidualOf, Addressed, Emitted, SortBy, PrefixesDistinct, Recorded,
         Nearest, Outlives, Remaining, Successive;
    assert PlannedWell(snapshot, planned[k], config, now, address, parses);
    ResidualValid(snapshot, planned[k].residual);
    forall r ensures r in plan.routes <==> r in Emitted(address, planned) {
      assert r in multiset(plan.routes) <==> r in multiset(Emitted(address, planned));
    }
  }

  /** Any route for the prefix of intent `k` belongs to intent `k`. */
  lemma RouteOwner(snapshot: Snapshot, plan: Plan, planned: seq<Planned>, ordered: seq<Intent>, config: Config,
                   now: Time, address: Addressing, parses: string -> bool, k: nat, r: Route)
    returns (j: nat, i: nat)
    requires Rolled(snapshot, plan, planned, ordered, config, now, address, parses) && k < |planned|
    requires r in plan.routes && r.prefix == planned[k].intent.prefix
    ensures IsHop(planned[k], address, r, j, i)
  {
    hide Snapshot.Valid, Ranged, WellPlanned, ResidualOf, Addressed, Emitted, SortBy, Progress, Recorded, Outlives,
         IsHop, Allowed, SortRoutes;
    RolledFacts(snapshot, plan, planned, ordered, config, now, address, parses, k);
    var k';
    k', j, i := EmittedHop(planned, address, r);
    RolledFacts(snapshot, plan, planned, ordered, config, now, address, parses, k');
    HopEdge(planned[k'], config, now, address, r, j, i);
    assert plan.intents[k].prefix == plan.intents[k'].prefix;
  }

  /** Wherever the walk stands on a best path away from the destination, every preferred route leads
      on along a best path over a usable link, at a higher cost. */
  lemma StepForward(snapshot: Snapshot, plan: Plan, planned: seq<Planned>, ordered: seq<Intent>, config: Config,
                    now: Time, address: Addressing, parses: string -> bool, states: map<string, State>, k: nat,
                    u: string, j: nat, i: nat, at: Time)
    requires Rolled(snapshot, plan, planned, ordered, config, now, address, parses) && Installed(plan, states)
    requires now <= at < plan.expiresAt && k < |planned| && OnBest(planned[k], u, j, i)
             && u != planned[k].intent.destination
    ensures snapshot.HasNode(u) && u in states && states[u].healthy
    ensures exists r :: r in states[u].routes && r.prefix == planned[k].intent.prefix
    ensures forall r :: Preferred(states[u], planned[k].intent.prefix, r) ==>
              && UsableEdge(snapshot, at, u, r.nextHopNode)
              && exists j', i' :: OnBest(planned[k], r.nextHopNode, j', i')
                                  && Progressed(planned[k], j', i') > Progressed(planned[k], j, i)
  {
    hide Snapshot.Valid, Snapshot.HasNode, Ranged, WellPlanned, ResidualOf, Rolled, OnBest, Progressed, IsHop,
         UsableEdge, Allowed, Emitted, Outlives, EndsAfter;
    RolledFacts(snapshot, plan, planned, ordered, config, now, address, parses, k);
    var first := BestContinues(planned[k], config, now, address, u, j, i);
    HopEmittedAt(planned, address, k, first, j, i);
    HopEdge(planned[k], config, now, address, first, j, i);
    OutlivesHop(planned[k].paths, plan.expiresAt, j, i, at);
    EdgeNodes(snapshot, planned[k], config, now, planned[k].paths[j][i], at);
    assert first in states[u].routes;
    forall r | Preferred(states[u], planned[k].intent.prefix, r)
      ensures UsableEdge(snapshot, at, u, r.nextHopNode)
      ensures exists j', i' :: OnBest(planned[k], r.nextHopNode, j', i')
                               && Progressed(planned[k], j', i') > Progressed(planned[k], j, i)
    {
      PreferredAdvances(snapshot, plan, planned, ordered, config, now, address, parses, k, u, j, i, r, at);
    }
  }

  lemma PreferredAdvances(snapshot: Snapshot, plan: Plan, planned: seq<Planned>, ordered: seq<Intent>, config: Config,
                          now: Time, address: Addressing, parses: string -> bool, k: nat, u: string, j: nat, i: nat,
                          r: Route, at: Time)
    requires Rolled(snapshot, plan, planned, ordered, config, now, address, parses) && now <= at < plan.expiresAt
    requires k < |planned| && OnBest(planned[k], u, j, i)
    requires r in plan.routes && r.device == u && r.prefix == planned[k].intent.prefix && r.metric <= 100
    ensures UsableEdge(snapshot, at, u, r.nextHopNode)
    ensures exists j', i' :: OnBest(planned[k], r.nextHopNode, j', i')
              && Progressed(planned[k], j', i') > Progressed(planned[k], j, i)
  {
    hide Snapshot.Valid, Ranged, WellPlanned, ResidualOf, Rolled, OnBest, Progressed, IsHop, UsableEdge, Allowed,
         Outlives, EndsAfter;
    RolledFacts(snapshot, plan, planned, ordered, config, now, address, parses, k);
    var j', i' := RouteOwner(snapshot, plan, planned, ordered, config, now, address, parses, k, r);
    HopMetric(planned[k], address, r, j', i');
    HopAdvances(planned[k], config, now, address, r, j', i');
    SameProgress(planned[k], config, now, u, j, i, j', i');
    HopEdge(planned[k], config, now, address, r, j', i');
    OutlivesHop(planned[k].paths, plan.expiresAt, j', i', at);
    EdgeNodes(snapshot, planned[k], config, now, planned[k].paths[j'][i'], at);
  }

  lemma HopMetric(planned: Planned, address: Addressing, r: Route, j: nat, i: nat)
    requires IsHop(planned, address, r, j, i)
    ensures r.metric >= 100
  {
  }

  lemma HopEmittedAt(planned: seq<Planned>, address: Addressing, k: nat, r: Route, j: nat, i: nat)
    requires k < |planned| && IsHop(planned[k], address, r, j, i)
    ensures r in Emitted(address, planned)
  {
    HopEmitted(planned[k], address, r, j, i, |planned[k].paths|);
    RouteEmitted(planned, address, k, r);
  }

  lemma OutlivesHop(paths: seq<seq<Edge>>, expires: Time, j: nat, i: nat, at: Time)
    requires Outlives(paths, expires) && j < |paths| && i < |paths[j]| && at < expires
    ensures EndsAfter(paths[j][i].link, at + 1)
  {
  }

  lemma EdgeNodes(snapshot: Snapshot, planned: Planned, config: Config, now: Time, e: Edge, at: Time)
    requires snapshot.Valid() && ResidualOf(snapshot, planned.residual)
             && e in Allowed(planned.residual, planned.intent, config, now)
    requires now <= at && EndsAfter(e.link, at + 1)
    ensures UsableEdge(snapshot, at, e.link.source, e.link.target) && snapshot.HasNode(e.link.source)
  {
    AllowedIsUsable(snapshot, planned, config, now, e, at);
    var a :| 0 <= a < |snapshot.links| && snapshot.links[a].source == e.link.source
      && snapshot.links[a].target == e.link.target;
    assert snapshot.ValidLink(snapshot.links[a]);
  }

  /** Where a walk for intent `k` has been: every visited node was reached at a smaller cost. */
  ghost predicate Trail(snapshot: Snapshot, planned: Planned, visited: set<string>, cost: map<string, int>, now: int) {
    && visited == cost.Keys
    && forall n :: n in visited ==>
         snapshot.HasNode(n) && cost[n] < now
           && exists j, i :: OnBest(planned, n, j, i) && Progressed(planned, j, i) == cost[n]
  }

  lemma NotVisited(snapshot: Snapshot, planned: Planned, config: Config, at: Time, visited: set<string>,
                   cost: map<string, int>, u: string, j: nat, i: nat)
    requires WellPlanned(planned, config, at) && OnBest(planned, u, j, i)
    requires Trail(snapshot, planned, visited, cost, Progressed(planned, j, i))
    ensures u !in visited
  {
    hide WellPlanned, OnBest, Progressed;
    if u in visited {
      var j', i' :| OnBest(planned, u, j', i') && Progressed(planned, j', i') == cost[u];
      SameProgress(planned, config, at, u, j, i, j', i');
    }
  }

  lemma OneFewer(s: set<string>, x: string)
    ensures |s| <= |s - {x}| + 1
  {
    if x in s {
      assert s == s - {x} + {x};
    } else {
      assert s == s - {x};
    }
  }

  lemma {:induction false} NodeBound(nodes: seq<Node>, visited: set<string>)
    requires forall n :: n in visited ==> exists i :: 0 <= i < |nodes| && nodes[i].id == n
    ensures |visited| <= |nodes|
  {
    if nodes == [] {
      assert visited == {};
    } else {
      var last := |nodes| - 1;
      var rest := visited - {nodes[last].id};
      forall n | n in rest ensures exists i :: 0 <= i < last && nodes[..last][i].id == n {
        var i :| 0 <= i < |nodes| && nodes[i].id == n;
        assert nodes[..last][i].id == n;
      }
      NodeBound(nodes[..last], rest);
      OneFewer(visited, nodes[last].id);
    }
  }

  /** The candidates of a device for a prefix, and one of the best of them. */
  method Choose(state: State, prefix: string) returns (r: Option<Route>)
    ensures r.Some? ==> Preferred(state, prefix, r.value)
    ensures r.None? ==> forall s :: s in state.routes ==> s.prefix != prefix
  {
    r := None;
    for i := 0 to |state.routes|
      invariant r.None? ==> forall k :: 0 <= k < i ==> state.routes[k].prefix != prefix
      invariant r.Some? ==> r.value in state.routes && r.value.prefix == prefix
                            && forall k :: 0 <= k < i && state.routes[k].prefix == prefix ==>
                                   r.value.metric <= state.routes[k].metric
    {
      var s := state.routes[i];
      if s.prefix == prefix {
        // the sort by metric alone leaves open which of several best routes comes first
        if r.None? || s.metric < r.value.metric {
          r := Some(s);
        } else if s.metric == r.value.metric {
          var other: bool := *;
          if other {
            r := Some(s);
          }
        }
      }
    }
  }

  /** A packet of the intent has come along `w`: it started at the source, every hop is a preferred route of a healthy
      device over a usable link, no node was left twice, and the destination was not left at all. */
  ghost predicate Travels(snapshot: Snapshot, states: map<string, State>, at: Time, intent: Intent, w: seq<string>) {
    && w != [] && w[0] == intent.source
    && (forall a, b :: 0 <= a < b < |w| - 1 ==> w[a] != w[b])
    && (forall a :: 0 <= a < |w| - 1 ==> w[a] != intent.destination)
    && forall a :: 0 <= a < |w| - 1 ==> Hops(snapshot, states, at, intent, w[a], w[a + 1])
  }

  ghost predicate Hops(snapshot: Snapshot, states: map<string, State>, at: Time, intent: Intent, u: string, v: string) {
    && u in states && states[u].healthy && UsableEdge(snapshot, at, u, v)
    && exists r :: Preferred(states[u], intent.prefix, r) && r.nextHopNode == v
  }

  /** The reported routes carry traffic of the intent to its destination, and no node is met twice. */
  ghost predicate Delivers(snapshot: Snapshot, states: map<string, State>, at: Time, intent: Intent) {
    exists w :: Travels(snapshot, states, at, intent, w) && w[|w| - 1] == intent.destination && NoRepeats(w)
  }

  ghost predicate NoRepeats(w: seq<string>) {
    forall a, b :: 0 <= a < b < |w| ==> w[a] != w[b]
  }

  /** Follow the reported routes of one intent. Acceptance means that they deliver. An installed plan is followed to
      its destination over usable links without a loop, whichever of several equally good routes a device uses. */
  method Follow(snapshot: Snapshot, edges: set<(string, string)>, states: map<string, State>, intent: Intent, at: Time,
                ghost plan: Plan, ghost planned: seq<Planned>, ghost ordered: seq<Intent>, ghost config: Config,
                ghost address: Addressing, ghost parses: string -> bool, ghost k: nat, ghost built: Time)
    returns (ok: bool)
    requires forall a, b :: (a, b) in edges <==> UsableEdge(snapshot, at, a, b)
    ensures && Rolled(snapshot, plan, planned, ordered, config, built, address, parses) && Installed(plan, states)
            && built <= at < plan.expiresAt && k < |planned| && planned[k].intent == intent
            ==> ok
    ensures ok ==> Delivers(snapshot, states, at, intent)
  {
    hide Rolled, Installed, UsableEdge, OnBest, Progressed, Trail, WellPlanned, Preferred, Snapshot.HasNode;
    ghost var w := [intent.source];
    ghost var good := Rolled(snapshot, plan, planned, ordered, config, built, address, parses)
      && Installed(plan, states)
                      && built <= at < plan.expiresAt && k < |planned| && planned[k].intent == intent;
    var current := intent.source;
    var visited: set<string> := {};
    ghost var cost: map<string, int> := map[];
    ghost var j: nat, i: nat := 0, 0;
    if good {
      WalkStarts(snapshot, plan, planned, ordered, config, built, address, parses, k);
    }
    var hops := 0;
    while hops <= |snapshot.nodes|
      invariant 0 <= hops <= |snapshot.nodes| + 1
      invariant Travels(snapshot, states, at, intent, w) && w[|w| - 1] == current
      invariant forall a :: 0 <= a < |w| - 1 ==> w[a] in visited
      invariant good ==>
        && OnBest(planned[k], current, j, i)
        && Trail(snapshot, planned[k], visited, cost, Progressed(planned[k], j, i)) && |visited| == hops
      decreases |snapshot.nodes| - hops
    {
      if current == intent.destination {
        break;
      }
      if good {
        RolledFacts(snapshot, plan, planned, ordered, config, built, address, parses, k);
        NotVisited(snapshot, planned[k], config, built, visited, cost, current, j, i);
        StepForward(snapshot, plan, planned, ordered, config, built, address, parses, states, k, current, j, i, at);
      }
      if current in visited {
        return false;
      }
      visited := visited + {current};
      if current !in states || !states[current].healthy {
        return false;
      }
      var next := Choose(states[current], intent.prefix);
      if next.None? {
        return false;
      }
      if (current, next.value.nextHopNode) !in edges {
        return false;
      }
      if good {
        ghost var j', i' :| OnBest(planned[k], next.value.nextHopNode, j', i')
                            && Progressed(planned[k], j', i') > Progressed(planned[k], j, i);
        TrailGrows(snapshot, planned[k], visited - {current}, cost, current, j, i, Progressed(planned[k], j', i'));
        cost := cost[current := Progressed(planned[k], j, i)];
        assert visited - {current} + {current} == visited;
        j, i := j', i';
      }
      assert Hops(snapshot, states, at, intent, current, next.value.nextHopNode);
      current := next.value.nextHopNode;
      w := w + [current];
      hops := hops + 1;
    }
    if good && current != intent.destination {
      TrailBound(snapshot, planned[k], visited, cost, Progressed(planned[k], j, i));
    }
    ok := current == intent.destination;
    assert ok ==> NoRepeats(w);
  }

  lemma WalkStarts(snapshot: Snapshot, plan: Plan, planned: seq<Planned>, ordered: seq<Intent>, config: Config,
                   at: Time, address: Addressing, parses: string -> bool, k: nat)
    requires Rolled(snapshot, plan, planned, ordered, config, at, address, parses) && k < |planned|
    ensures OnBest(planned[k], planned[k].intent.source, 0, 0)
    ensures Trail(snapshot, planned[k], {}, map[], Progressed(planned[k], 0, 0))
  {
    hide Rolled;
    RolledFacts(snapshot, plan, planned, ordered, config, at, address, parses, k);
  }

  lemma TrailGrows(snapshot: Snapshot, planned: Planned, visited: set<string>, cost: map<string, int>, u: string,
                   j: nat, i: nat, now: int)
    requires OnBest(planned, u, j, i) && Trail(snapshot, planned, visited, cost, Progressed(planned, j, i))
             && snapshot.HasNode(u)
    requires Progressed(planned, j, i) < now && u !in visited
    ensures Trail(snapshot, planned, visited + {u}, cost[u := Progressed(planned, j, i)], now)
  {
    hide OnBest, Progressed;
  }

  lemma TrailBound(snapshot: Snapshot, planned: Planned, visited: set<string>, cost: map<string, int>, now: int)
    requires Trail(snapshot, planned, visited, cost, now)
    ensures |visited| <= |snapshot.nodes|
  {
    NodeBound(snapshot.nodes, visited);
  }

  /** The probe accepts every plan the planner built for intents with distinct prefixes, once its
      routes are installed and until it expires. */
  method Verify(snapshot: Snapshot, states: map<string, State>, plan: Plan, at: Time,
                ghost planned: seq<Planned>, ghost ordered: seq<Intent>, ghost config: Config,
                ghost address: Addressing, ghost parses: string -> bool, ghost built: Time)
    returns (ok: bool)
    ensures && Rolled(snapshot, plan, planned, ordered, config, built, address, parses) && Installed(plan, states)
            && built <= at < plan.expiresAt
            ==> ok
    ensures ok ==> forall k :: 0 <= k < |plan.intents| ==> Delivers(snapshot, states, at, plan.intents[k])
  {
    hide Installed, UsableEdge, WellPlanned, Emitted, SortBy, Progress, Ranged, Snapshot.Valid, Hops, Recorded,
         Delivers;
    var edges := UsableEdges(snapshot, at);
    for k := 0 to |plan.intents|
      invariant forall l :: 0 <= l < k ==> Delivers(snapshot, states, at, plan.intents[l])
    {
      var reached := Follow(snapshot, edges, states, plan.intents[k], at, plan, planned, ordered, config, address,
                            parses, k, built);
      if !reached {
        return false;
      }
    }
    return true;
  }

  // ---- every walk ----------------------------------------------------------------------------

  /** One way devices may pass a packet on, each by one of its preferred routes, until the destination is reached. */
  ghost predicate Passed(states: map<string, State>, intent: Intent, w: seq<string>) {
    && w != [] && w[0] == intent.source
    && forall a :: 0 <= a < |w| - 1 ==> Passes(states, intent, w[a], w[a + 1])
  }

  ghost predicate Passes(states: map<string, State>, intent: Intent, u: string, v: string) {
    u != intent.destination && u in states && exists r :: Preferred(states[u], intent.prefix, r) && r.nextHopNode == v
  }

  /** However devices choose among equally good routes, packets of the intent cross only healthy devices and usable
      links, never meet a node twice, and can go on until they are at the destination. */
  ghost predicate Forwards(snapshot: Snapshot, states: map<string, State>, at: Time, intent: Intent) {
    forall w :: Passed(states, intent, w) ==>
      && Travels(snapshot, states, at, intent, w) && NoRepeats(w) && |w| <= |snapshot.nodes| + 1
      && (w[|w| - 1] != intent.destination ==> GoesOn(states, intent, w[|w| - 1]))
  }

  ghost predicate GoesOn(states: map<string, State>, intent: Intent, u: string) {
    exists v :: Passes(states, intent, u, v)
  }

  function Members(w: seq<string>): set<string> {
    set n | n in w
  }

  lemma {:induction false} MembersCount(w: seq<string>)
    requires NoRepeats(w)
    ensures |Members(w)| == |w|
  {
    if w != [] {
      var front := w[..|w| - 1];
      MembersCount(front);
      assert Members(w) == Members(front) + {w[|w| - 1]};
    }
  }

  /** A walk stands on a best path, and came along best paths at smaller costs. */
  lemma {:induction false} WalkOnBest(snapshot: Snapshot, plan: Plan, planned: seq<Planned>, ordered: seq<Intent>,
                                      config: Config, now: Time, address: Addressing, parses: string -> bool,
                                      states: map<string, State>, k: nat, at: Time, w: seq<string>)
    returns (j: nat, i: nat, cost: map<string, int>)
    requires Rolled(snapshot, plan, planned, ordered, config, now, address, parses) && Installed(plan, states)
    requires now <= at < plan.expiresAt && k < |planned| && Passed(states, planned[k].intent, w)
    ensures OnBest(planned[k], w[|w| - 1], j, i)
    ensures Trail(snapshot, planned[k], Members(w[..|w| - 1]), cost, Progressed(planned[k], j, i))
    ensures Travels(snapshot, states, at, planned[k].intent, w) && NoRepeats(w)
    decreases |w|
  {
    hide Rolled, Installed, UsableEdge, OnBest, Progressed, Trail, WellPlanned, Preferred, Snapshot.HasNode;
    RolledFacts(snapshot, plan, planned, ordered, config, now, address, parses, k);
    if |w| == 1 {
      WalkStarts(snapshot, plan, planned, ordered, config, now, address, parses, k);
      assert Members(w[..0]) == {};
      return 0, 0, map[];
    }
    var front := w[..|w| - 1];
    var u, v := front[|front| - 1], w[|w| - 1];
    j, i, cost := WalkOnBest(snapshot, plan, planned, ordered, config, now, address, parses, states, k, at, front);
    assert Passes(states, planned[k].intent, u, v);
    StepForward(snapshot, plan, planned, ordered, config, now, address, parses, states, k, u, j, i, at);
    NotVisited(snapshot, planned[k], config, now, Members(front[..|front| - 1]), cost, u, j, i);
    var j', i' :| OnBest(planned[k], v, j', i') && Progressed(planned[k], j', i') > Progressed(planned[k], j, i);
    TrailGrows(snapshot, planned[k], Members(front[..|front| - 1]), cost, u, j, i, Progressed(planned[k], j', i'));
    assert Members(front) == Members(front[..|front| - 1]) + {u};
    cost := cost[u := Progressed(planned[k], j, i)];
    NotVisited(snapshot, planned[k], config, now, Members(front), cost, v, j', i');
    assert Hops(snapshot, states, at, planned[k].intent, u, v);
    WalkExtends(snapshot, states, at, planned[k].intent, front, v);
    assert front + [v] == w;
    j, i := j', i';
  }

  lemma WalkExtends(snapshot: Snapshot, states: map<string, State>, at: Time, intent: Intent, w: seq<string>, v: string)
    requires Travels(snapshot, states, at, intent, w) && NoRepeats(w) && v !in Members(w)
    requires Hops(snapshot, states, at, intent, w[|w| - 1], v) && w[|w| - 1] != intent.destination
    ensures Travels(snapshot, states, at, intent, w + [v]) && NoRepeats(w + [v])
  {
    hide Hops;
    var more := w + [v];
    forall a | 0 <= a < |more| - 1 ensures Hops(snapshot, states, at, intent, more[a], more[a + 1]) {
      if a < |w| - 1 {
        assert Hops(snapshot, states, at, intent, w[a], w[a + 1]);
      }
    }
  }

  /** Until it expires, an installed plan forwards every intent it was built for. */
  lemma InstalledForwards(snapshot: Snapshot, plan: Plan, planned: seq<Planned>, ordered: seq<Intent>, config: Config,
                          now: Time, address: Addressing, parses: string -> bool, states: map<string, State>, k: nat,
                          at: Time)
    requires Rolled(snapshot, plan, planned, ordered, config, now, address, parses) && Installed(plan, states)
    requires now <= at < plan.expiresAt && k < |planned|
    ensures Forwards(snapshot, states, at, planned[k].intent)
  {
    hide Rolled, Installed, OnBest, Progressed, Trail, Preferred, Travels, NoRepeats, UsableEdge, Snapshot.HasNode;
    var intent := planned[k].intent;
    forall w | Passed(states, intent, w)
      ensures Travels(snapshot, states, at, intent, w) && NoRepeats(w) && |w| <= |snapshot.nodes| + 1
      ensures w[|w| - 1] != intent.destination ==> GoesOn(states, intent, w[|w| - 1])
    {
      var j, i, cost := WalkOnBest(snapshot, plan, planned, ordered, config, now, address, parses, states, k, at, w);
      TrailBound(snapshot, planned[k], Members(w[..|w| - 1]), cost, Progressed(planned[k], j, i));
      FrontCount(w);
      if w[|w| - 1] != intent.destination {
        StepForward(snapshot, plan, planned, ordered, config, now, address, parses, states, k, w[|w| - 1], j, i, at);
        var r :| r in states[w[|w| - 1]].routes && r.prefix == intent.prefix;
        var best := BestRoute(states[w[|w| - 1]], intent.prefix, r);
        assert Passes(states, intent, w[|w| - 1], best.nextHopNode);
      }
    }
  }

  lemma FrontCount(w: seq<string>)
    requires w != [] && NoRepeats(w)
    ensures |Members(w[..|w| - 1])| == |w| - 1
  {
    MembersCount(w[..|w| - 1]);
  }

  /** Among the routes of a device for a prefix there is a best one. */
  lemma {:induction false} BestRoute(state: State, prefix: string, r: Route) returns (best: Route)
    requires r in state.routes && r.prefix == prefix
    ensures Preferred(state, prefix, best)
    decreases |state.routes|
  {
    var last, rest := state.routes[|state.routes| - 1], state.(routes := state.routes[..|state.routes| - 1]);
    if r in rest.routes {
      best := BestRoute(rest, prefix, r);
      if last.prefix == prefix && last.metric < best.metric {
        best := last;
      }
    } else if s :| s in rest.routes && s.prefix == prefix {
      best := BestRoute(rest, prefix, s);
      if last.metric < best.metric {
        best := last;
      }
    } else {
      best := r;
    }
  }

  /** What forwards delivers. */
  lemma {:induction false} ForwardsDelivers(snapshot: Snapshot, states: map<string, State>, at: Time, intent: Intent,
                                            w: seq<string>)
    requires Forwards(snapshot, states, at, intent) && Passed(states, intent, w)
    ensures Delivers(snapshot, states, at, intent)
    decreases |snapshot.nodes| + 1 - |w|
  {
    hide Travels, Passes, NoRepeats;
    if w[|w| - 1] != intent.destination {
      assert GoesOn(states, intent, w[|w| - 1]);
      var v :| Passes(states, intent, w[|w| - 1], v);
      var more := w + [v];
      forall a | 0 <= a < |more| - 1 ensures Passes(states, intent, more[a], more[a + 1]) {
        if a < |w| - 1 {
          assert Passes(states, intent, w[a], w[a + 1]);
        }
      }
      assert |more| <= |snapshot.nodes| + 1;
      ForwardsDelivers(snapshot, states, at, intent, more);
    }
  }
}
