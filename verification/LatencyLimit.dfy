/** The latency limit of an intent is applied to the cheapest path only. This says exactly for which
    policies and topologies that is enough. */
module LatencyLimit {
  import opened Names
  import opened Fabric
  import opened Graph
  import opened Policy

  /** The time a packet takes along a path. */
  function Delay(p: seq<Edge>): int {
    if p == [] then 0 else Delay(p[..|p| - 1]) + p[|p| - 1].link.latency
  }

  /** The limit refuses the intent although an admissible path meets it. */
  ghost predicate Misjudged(snapshot: Snapshot, intent: Intent, policy: string, options: Options) {
    var edges := Edges(snapshot, intent, policy, options);
    && intent.Valid() && Enabled(snapshot.nodes, options, intent.source)
    && Enabled(snapshot.nodes, options, intent.destination)
    && exists p, q :: Refused(edges, intent, p) && Meets(edges, intent, q)
  }

  ghost predicate Refused(edges: set<Edge>, intent: Intent, p: seq<Edge>) {
    Reachable(edges, intent, p) && Exceeds(intent, p)
  }

  ghost predicate Meets(edges: set<Edge>, intent: Intent, q: seq<Edge>) {
    IsPath(edges, intent.source, intent.destination, q) && Delay(q) <= intent.maxLatency
  }

  /** The policies that charge latency. */
  predicate ChargesLatency(policy: string) {
    policy != "hops" && policy != "capacity" && policy != "reliability"
  }

  /** All topologies, or only those in which every link takes time. */
  ghost predicate InClass(snapshot: Snapshot, positive: bool) {
    snapshot.Valid() && Ranged(snapshot)
      && (positive ==> forall i :: 0 <= i < |snapshot.links| ==> snapshot.links[i].latency != 0)
  }

  // ---- where the limit is right --------------------------------------------------------------

  /** Links whose cost is their latency. */
  ghost predicate LatencyCosts(edges: set<Edge>) {
    forall e :: e in edges ==> e.cost == e.link.latency
  }

  lemma {:induction false} LatencyIsCost(edges: set<Edge>, source: string, target: string, p: seq<Edge>)
    requires Proper(edges) && LatencyCosts(edges) && IsPath(edges, source, target, p)
    ensures Delay(p) == Cost(p) && (Cost(p) <= MAX ==> Latency(p) == Cost(p))
    decreases |p|
  {
    if p != [] {
      var front := p[..|p| - 1];
      CostPositive(edges, source, p[|p| - 1].link.source, front);
      LatencyIsCost(edges, source, p[|p| - 1].link.source, front);
    }
  }

  /** These policies charge the latency of every link that has one. */
  lemma DefaultPolicyCostsLatency(snapshot: Snapshot, intent: Intent, policy: string, options: Options)
    requires ChargesLatency(policy) && InClass(snapshot, true)
    ensures LatencyCosts(Edges(snapshot, intent, policy, options))
  {
    hide Snapshot.Valid;
  }

  /** Under latency costs a refusal means that every admissible path breaks the limit. */
  lemma LatencyLimitComplete(edges: set<Edge>, intent: Intent, p: seq<Edge>, q: seq<Edge>)
    requires Proper(edges) && LatencyCosts(edges) && Refused(edges, intent, p)
    requires IsPath(edges, intent.source, intent.destination, q)
    ensures Delay(q) > intent.maxLatency
  {
    hide IsPath, Proper, LatencyCosts, Delay, Cost, Latency;
    CheapestPath(edges, intent, p, q);
    LatencyIsCost(edges, intent.source, intent.destination, p);
    LatencyIsCost(edges, intent.source, intent.destination, q);
  }

  lemma CheapestPath(edges: set<Edge>, intent: Intent, p: seq<Edge>, q: seq<Edge>)
    requires Reachable(edges, intent, p) && IsPath(edges, intent.source, intent.destination, q)
    ensures IsPath(edges, intent.source, intent.destination, p) && Cost(p) <= Cost(q) && Cost(p) < MAX
  {
  }

  // ---- where it is not -----------------------------------------------------------------------

  function Up(id: string, source: string, target: string, latency: int): Link {
    Link(id, source, target, true, true, "", latency, 1_000_000_000_000, 0, 1_000_000, [], 0, 0, 0)
  }

  function Request(destination: string, limit: int): Intent {
    Intent("intent", "a", destination, [], "prefix", "", limit, 0, 0, 0, 0, 0, 0)
  }

  const ANY := Options(0, 0, {}, {}, {})

  /** A slow direct link from "a" to "c", and a faster detour over "b". */
  function Detour(): Snapshot {
    Snapshot(1, 0, [Node("a", true), Node("b", true), Node("c", true)],
             [Up("1", "a", "c", 9), Up("2", "a", "b", 2), Up("3", "b", "c", 2)])
  }

  lemma {:induction false} NothingInto(edges: set<Edge>, source: string, q: seq<Edge>)
    requires IsPath(edges, source, source, q) && forall e :: e in edges ==> e.link.target != source
    ensures q == []
  {
  }

  /** When all links cost the same, one hop is the canonical path. */
  lemma DirectIsCanonical(edges: set<Edge>, k: int)
    requires k >= 1 && edges
               == {Edge(Up("1", "a", "c", 9), k), Edge(Up("2", "a", "b", 2), k), Edge(Up("3", "b", "c", 2), k)}
    ensures Canonical(edges, "a", "c", [Edge(Up("1", "a", "c", 9), k)]) && Cost([Edge(Up("1", "a", "c", 9), k)]) == k
  {
    var slow := Edge(Up("1", "a", "c", 9), k);
    forall q: seq<Edge> | IsPath(edges, "a", "c", q) ensures Cost(q) >= k && (Cost(q) == k ==> q == [slow]) {
      DirectOrNot(edges, k, q);
    }
    Single(edges, "a", "c", slow);
    LessIrreflexive("1");
  }

  lemma DirectOrNot(edges: set<Edge>, k: int, q: seq<Edge>)
    requires k >= 1 && edges
               == {Edge(Up("1", "a", "c", 9), k), Edge(Up("2", "a", "b", 2), k), Edge(Up("3", "b", "c", 2), k)}
    requires IsPath(edges, "a", "c", q)
    ensures q == [Edge(Up("1", "a", "c", 9), k)] || Cost(q) >= 2 * k
    ensures Cost(q) >= k
  {
    var e, front := q[|q| - 1], q[..|q| - 1];
    assert IsPath(edges, "a", e.link.source, front);
    if e.link.source == "a" {
      NothingInto(edges, "a", front);
      assert q == [e];
    } else {
      assert front != [];
      CostPositive(edges, "a", front[|front| - 1].link.source, front[..|front| - 1]);
    }
  }

  /** A single link is canonical if it is cheapest and nothing as cheap has a smaller last link. */
  lemma Single(edges: set<Edge>, source: string, target: string, e: Edge)
    requires e in edges && e.link.source == source && e.link.target == target && e.cost >= 1
    requires forall f :: f in edges ==> f.cost >= 1
    requires forall q: seq<Edge> :: IsPath(edges, source, target, q) ==>
                 Cost(q) >= e.cost && (Cost(q) == e.cost ==> q == [e])
    ensures Canonical(edges, source, target, [e]) && Cost([e]) == e.cost
  {
    assert [e][..0] == [];
    assert IsPath(edges, source, source, []) && IsPath(edges, source, target, [e]);
    forall q: seq<Edge> | IsPath(edges, source, source, q) ensures Cost([]) <= Cost(q) {
      NonNegative(edges, source, source, q);
    }
    assert Canonical(edges, source, source, []);
    LessIrreflexive(e.link.id);
  }

  lemma {:induction false} NonNegative(edges: set<Edge>, source: string, target: string, q: seq<Edge>)
    requires IsPath(edges, source, target, q) && forall f :: f in edges ==> f.cost >= 1
    ensures Cost(q) >= 0
    decreases |q|
  {
    if q != [] {
      NonNegative(edges, source, q[|q| - 1].link.source, q[..|q| - 1]);
    }
  }

  /** The edges of a topology whose links are all admissible. */
  lemma AllEdges(s: Snapshot, intent: Intent, policy: string, costs: seq<int>)
    requires |costs| == |s.links| && forall i :: 0 <= i < |s.links| ==> Admissible(s.nodes, intent, ANY, s.links[i])
    requires forall i :: 0 <= i < |s.links| ==>
               s.links[i].capacity > 0 && s.links[i].latency >= 0 && EdgeCost(s.links[i], policy) == costs[i] >= 1
    ensures Edges(s, intent, policy, ANY) == set i | 0 <= i < |s.links| :: Edge(s.links[i], costs[i])
  {
    hide Admissible, EdgeCost;
  }

  lemma Admitted(s: Snapshot, intent: Intent, i: nat)
    requires i < |s.links| && Enabled(s.nodes, ANY, s.links[i].source) && Enabled(s.nodes, ANY, s.links[i].target)
    requires s.links[i].Usable(0, 0) && s.links[i].riskGroups == []
    requires intent.minCapacity == 0 && intent.demand == 0 && intent.maxLoss == 0 && intent.requiredReliability == 0
    ensures Admissible(s.nodes, intent, ANY, s.links[i])
  {
    hide Enabled;
  }

  lemma DetourEdges(policy: string)
    requires !ChargesLatency(policy)
    ensures var k := if policy == "hops" then 1 else 2;
            Edges(Detour(), Request("c", 5), policy, ANY) ==
            {Edge(Up("1", "a", "c", 9), k), Edge(Up("2", "a", "b", 2), k), Edge(Up("3", "b", "c", 2), k)}
  {
    hide Enabled, Edges, Admissible;
    var s, intent := Detour(), Request("c", 5);
    var k := if policy == "hops" then 1 else 2;
    DetourNodes();
    Admitted(s, intent, 0);
    Admitted(s, intent, 1);
    Admitted(s, intent, 2);
    assert EdgeCost(s.links[0], policy) == k && EdgeCost(s.links[1], policy) == k && EdgeCost(s.links[2], policy) == k;
    AllEdges(s, intent, policy, [k, k, k]);
  }

  /** Every other policy refuses the detour although it meets the limit and every link takes time. */
  lemma OtherPoliciesMisjudge(policy: string)
    requires !ChargesLatency(policy)
    ensures InClass(Detour(), true) && Misjudged(Detour(), Request("c", 5), policy, ANY)
  {
    hide Edges, Canonical, IsPath;
    DetourFine();
    DetourEdges(policy);
    var k := if policy == "hops" then 1 else 2;
    var edges := Edges(Detour(), Request("c", 5), policy, ANY);
    var slow, first, second := Edge(Up("1", "a", "c", 9), k), Edge(Up("2", "a", "b", 2), k),
      Edge(Up("3", "b", "c", 2), k);
    DirectIsCanonical(edges, k);
    TwoHops(edges, first, second);
    OneHop(slow);
    assert Refused(edges, Request("c", 5), [slow]) && Meets(edges, Request("c", 5), [first, second]);
  }

  /** Checking a topology part by part. */
  lemma ValidParts(s: Snapshot, positive: bool)
    requires s.version > 0 && (forall i :: 0 <= i < |s.nodes| ==> s.nodes[i].id != "")
    requires forall i, j :: 0 <= i < j < |s.nodes| ==> s.nodes[i].id != s.nodes[j].id
    requires forall i :: 0 <= i < |s.links| ==> s.ValidLink(s.links[i])
    requires forall i, j :: 0 <= i < j < |s.links| ==> s.links[i].id != s.links[j].id
    requires forall i :: 0 <= i < |s.links| ==> Int64(s.links[i].latency) && Int64(s.links[i].reliability)
    requires positive ==> forall i :: 0 <= i < |s.links| ==> s.links[i].latency != 0
    ensures InClass(s, positive)
  {
    hide Snapshot.ValidLink;
  }

  lemma Joined(s: Snapshot, i: nat)
    requires i < |s.links| && s.HasNode(s.links[i].source) && s.HasNode(s.links[i].target)
    requires var l := s.links[i];
             l.id != "" && l.source != "" && l.target != "" && l.source != l.target && l.riskGroups == []
    ensures s.ValidLink(s.links[i])
  {
    hide Snapshot.HasNode;
  }

  lemma DetourFine()
    ensures InClass(Detour(), true) && Request("c", 5).Valid()
    ensures Enabled(Detour().nodes, ANY, "a") && Enabled(Detour().nodes, ANY, "c")
  {
    hide Snapshot.HasNode, Snapshot.ValidLink, InClass;
    var s := Detour();
    DetourNodes();
    Joined(s, 0);
    Joined(s, 1);
    Joined(s, 2);
    ValidParts(s, true);
  }

  lemma DetourNodes()
    ensures var s := Detour(); s.HasNode("a") && s.HasNode("b") && s.HasNode("c")
    ensures Enabled(Detour().nodes, ANY, "a") && Enabled(Detour().nodes, ANY, "b") && Enabled(Detour().nodes, ANY, "c")
  {
    var s := Detour();
    assert s.nodes[0].id == "a" && s.nodes[1].id == "b" && s.nodes[2].id == "c";
  }

  lemma OneHop(e: Edge)
    requires Int64(e.link.latency)
    ensures Latency([e]) == e.link.latency && Cost([e]) == e.cost
  {
    assert [e][..0] == [];
  }

  lemma TwoHops(edges: set<Edge>, first: Edge, second: Edge)
    requires first in edges && second in edges && first.link.target == second.link.source
    ensures IsPath(edges, first.link.source, second.link.target, [first, second])
    ensures Delay([first, second]) == first.link.latency + second.link.latency
  {
    assert [first, second][..1] == [first] && [first][..0] == [];
    assert IsPath(edges, first.link.source, first.link.source, []);
    assert IsPath(edges, first.link.source, first.link.target, [first]);
    assert Delay([first]) == first.link.latency;
  }

  /** A direct link that takes time, and a detour over links that take none. */
  function Instant(): Snapshot {
    Snapshot(1, 0, [Node("a", true), Node("b", true), Node("c", true), Node("d", true)],
             [Up("1", "a", "d", 2), Up("2", "a", "b", 0), Up("3", "b", "c", 0), Up("4", "c", "d", 0)])
  }

  lemma InstantEdges(policy: string)
    requires ChargesLatency(policy)
    ensures Edges(Instant(), Request("d", 1), policy, ANY) ==
            {Edge(Up("1", "a", "d", 2), 2), Edge(Up("2", "a", "b", 0), 1), Edge(Up("3", "b", "c", 0), 1),
             Edge(Up("4", "c", "d", 0), 1)}
  {
    hide Enabled, Edges, Admissible;
    var s, intent := Instant(), Request("d", 1);
    InstantNodes();
    Admitted(s, intent, 0);
    Admitted(s, intent, 1);
    Admitted(s, intent, 2);
    Admitted(s, intent, 3);
    AllEdges(s, intent, policy, [2, 1, 1, 1]);
  }

  lemma InstantDirect(edges: set<Edge>, q: seq<Edge>)
    requires edges == {Edge(Up("1", "a", "d", 2), 2), Edge(Up("2", "a", "b", 0), 1), Edge(Up("3", "b", "c", 0), 1),
                       Edge(Up("4", "c", "d", 0), 1)}
    requires IsPath(edges, "a", "d", q)
    ensures q == [Edge(Up("1", "a", "d", 2), 2)] || Cost(q) >= 3
  {
    var e, front := q[|q| - 1], q[..|q| - 1];
    assert IsPath(edges, "a", e.link.source, front);
    if e.link.source == "a" {
      NothingInto(edges, "a", front);
      assert q == [e];
    } else {
      assert front != [];
      var f, rest := front[|front| - 1], front[..|front| - 1];
      assert IsPath(edges, "a", "b", rest) && rest != [];
      NonNegative(edges, "a", rest[|rest| - 1].link.source, rest[..|rest| - 1]);
      assert Cost(q) == Cost(front) + 1 && Cost(front) == Cost(rest) + 1 && Cost(rest) >= 1;
    }
  }

  lemma InstantCanonical(edges: set<Edge>)
    requires edges == {Edge(Up("1", "a", "d", 2), 2), Edge(Up("2", "a", "b", 0), 1), Edge(Up("3", "b", "c", 0), 1),
                       Edge(Up("4", "c", "d", 0), 1)}
    ensures Canonical(edges, "a", "d", [Edge(Up("1", "a", "d", 2), 2)]) && Cost([Edge(Up("1", "a", "d", 2), 2)]) == 2
  {
    hide IsPath, Canonical;
    var slow := Edge(Up("1", "a", "d", 2), 2);
    forall q: seq<Edge> | IsPath(edges, "a", "d", q) ensures Cost(q) >= 2 && (Cost(q) == 2 ==> q == [slow]) {
      InstantDirect(edges, q);
      OneHop(slow);
    }
    Single(edges, "a", "d", slow);
  }

  /** Links without latency still cost one, so the latency policies refuse a detour that takes no time. */
  lemma ZeroLatencyMisjudges(policy: string)
    requires ChargesLatency(policy)
    ensures InClass(Instant(), false) && Misjudged(Instant(), Request("d", 1), policy, ANY)
  {
    hide Edges, Canonical, IsPath;
    InstantFine();
    InstantEdges(policy);
    var edges, intent := Edges(Instant(), Request("d", 1), policy, ANY), Request("d", 1);
    var slow := Edge(Up("1", "a", "d", 2), 2);
    var first, second, third := Edge(Up("2", "a", "b", 0), 1), Edge(Up("3", "b", "c", 0), 1),
      Edge(Up("4", "c", "d", 0), 1);
    OneHop(slow);
    InstantCanonical(edges);
    ThreeHops(edges, first, second, third);
    assert Refused(edges, intent, [slow]) && Meets(edges, intent, [first, second, third]);
  }

  lemma InstantFine()
    ensures InClass(Instant(), false) && Request("d", 1).Valid()
    ensures Enabled(Instant().nodes, ANY, "a") && Enabled(Instant().nodes, ANY, "d")
  {
    hide Snapshot.HasNode, Snapshot.ValidLink, InClass;
    var s := Instant();
    InstantNodes();
    Joined(s, 0);
    Joined(s, 1);
    Joined(s, 2);
    Joined(s, 3);
    ValidParts(s, false);
  }

  lemma InstantNodes()
    ensures var s := Instant(); s.HasNode("a") && s.HasNode("b") && s.HasNode("c") && s.HasNode("d")
    ensures Enabled(Instant().nodes, ANY, "a") && Enabled(Instant().nodes, ANY, "b")
    ensures Enabled(Instant().nodes, ANY, "c") && Enabled(Instant().nodes, ANY, "d")
  {
    var s := Instant();
    assert s.nodes[0].id == "a" && s.nodes[1].id == "b" && s.nodes[2].id == "c" && s.nodes[3].id == "d";
  }

  lemma ThreeHops(edges: set<Edge>, first: Edge, second: Edge, third: Edge)
    requires first in edges && second in edges && third in edges
    requires first.link.target == second.link.source && second.link.target == third.link.source
    ensures IsPath(edges, first.link.source, third.link.target, [first, second, third])
    ensures Delay([first, second, third]) == first.link.latency + second.link.latency + third.link.latency
  {
    TwoHops(edges, first, second);
    assert [first, second, third][..2] == [first, second];
  }

  // ---- exactly when --------------------------------------------------------------------------

  /** On a class of topologies the limit never misjudges an intent exactly if the policy charges latency and
      every link of the class takes time. */
  lemma LatencyLimitIff(policy: string, positive: bool)
    ensures (forall s, intent, options :: InClass(s, positive) ==> !Misjudged(s, intent, policy, options))
            <==> ChargesLatency(policy) && positive
  {
    hide InClass, Edges, Refused, Meets;
    if ChargesLatency(policy) && positive {
      forall s, intent, options | InClass(s, positive) ensures !Misjudged(s, intent, policy, options) {
        NeverMisjudged(s, intent, policy, options);
      }
    } else if !ChargesLatency(policy) {
      OtherPoliciesMisjudge(policy);
      Anyway(Detour(), positive);
    } else {
      ZeroLatencyMisjudges(policy);
    }
  }

  lemma Anyway(s: Snapshot, positive: bool)
    requires InClass(s, true)
    ensures InClass(s, positive)
  {
  }

  lemma NeverMisjudged(s: Snapshot, intent: Intent, policy: string, options: Options)
    requires ChargesLatency(policy) && InClass(s, true)
    ensures !Misjudged(s, intent, policy, options)
  {
    hide Edges, Snapshot.Valid, Ranged, Refused, IsPath, LatencyCosts, Proper;
    var edges := Edges(s, intent, policy, options);
    EdgesProper(s, intent, policy, options);
    DefaultPolicyCostsLatency(s, intent, policy, options);
    forall p, q | Refused(edges, intent, p) ensures !Meets(edges, intent, q) {
      if Meets(edges, intent, q) {
        LatencyLimitComplete(edges, intent, p, q);
      }
    }
  }
}
