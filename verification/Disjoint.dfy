/** Backup paths that share nothing with the paths before them: exclusions accumulate in maps that
    all searches of one intent share. */
module Disjoint {
  import opened Fabric
  import opened Graph
  import opened Policy

  /** The exclusion maps of one intent. */
  class Exclusions {
    var links: set<string>
    var nodes: set<string>
    var groups: set<string>

    constructor ()
      ensures links == {} && nodes == {} && groups == {}
    {
      links, nodes, groups := {}, {}, {};
    }

    ghost function At(at: Time, maxAge: Time): Options
      reads this
    {
      Options(at, maxAge, links, nodes, groups)
    }
  }

  /** `a` and `b` are neighbours on the path, in either direction. */
  ghost predicate Adjacent(nodes: seq<string>, a: string, b: string) {
    exists i :: 0 <= i < |nodes| - 1 &&
      ((nodes[i] == a && nodes[i + 1] == b) || (nodes[i] == b && nodes[i + 1] == a))
  }

  /** A link shares no ID, no neighbouring pair of nodes in either direction, no risk group and, if asked
      for, no interior node with `path`. */
  ghost predicate EdgeApart(path: Path, link: Link, nodeDisjoint: bool) {
    && link.id !in path.links
    && !Adjacent(path.nodes, link.source, link.target)
    && (forall g :: g in link.riskGroups ==> g !in path.riskGroups)
    && (nodeDisjoint ==> !Interior(path.nodes, link.source) && !Interior(path.nodes, link.target))
  }

  ghost predicate Interior(nodes: seq<string>, n: string) {
    exists i :: 1 <= i < |nodes| - 1 && nodes[i] == n
  }

  /** `q` shares nothing with `path`. */
  ghost predicate Apart(path: Path, q: seq<Edge>, nodeDisjoint: bool) {
    forall k :: 0 <= k < |q| ==> EdgeApart(path, q[k].link, nodeDisjoint)
  }

  /** The exclusions, extended by exactly what `path` uses. */
  ghost function Excluding(options: Options, snapshot: Snapshot, path: Path, nodeDisjoint: bool): Options {
    Options(options.at, options.maxAge,
            options.links + (set id | id in path.links)
              + (set i | 0 <= i < |snapshot.links|
                 && Adjacent(path.nodes, snapshot.links[i].source, snapshot.links[i].target)
                   :: snapshot.links[i].id),
            options.nodes + (if nodeDisjoint then set i | 1 <= i < |path.nodes| - 1 :: path.nodes[i] else {}),
            options.groups + path.riskGroups)
  }

  ghost function OnlyApart(edges: set<Edge>, path: Path, nodeDisjoint: bool): set<Edge> {
    set e | e in edges && EdgeApart(path, e.link, nodeDisjoint)
  }

  lemma EnabledExcept(nodes: seq<Node>, options: Options, snapshot: Snapshot, path: Path, nodeDisjoint: bool,
                      id: string)
    ensures Enabled(nodes, Excluding(options, snapshot, path, nodeDisjoint), id) <==>
              Enabled(nodes, options, id) && !(nodeDisjoint && Interior(path.nodes, id))
  {
  }

  lemma LinkExcluded(snapshot: Snapshot, options: Options, path: Path, nodeDisjoint: bool, i: nat)
    requires snapshot.Valid() && i < |snapshot.links|
    ensures snapshot.links[i].id in Excluding(options, snapshot, path, nodeDisjoint).links <==>
              || snapshot.links[i].id in options.links || snapshot.links[i].id in path.links
              || Adjacent(path.nodes, snapshot.links[i].source, snapshot.links[i].target)
  {
    hide Adjacent, Snapshot.ValidLink;
    var more := Excluding(options, snapshot, path, nodeDisjoint).links;
    if snapshot.links[i].id in more && snapshot.links[i].id !in options.links && snapshot.links[i].id !in path.links {
      var j :| 0 <= j < |snapshot.links| && Adjacent(path.nodes, snapshot.links[j].source, snapshot.links[j].target)
               && snapshot.links[j].id == snapshot.links[i].id;
      assert j == i;
    }
  }

  lemma AdmissibleExcept(snapshot: Snapshot, intent: Intent, options: Options, path: Path, nodeDisjoint: bool, i: nat)
    requires snapshot.Valid() && i < |snapshot.links|
    ensures Admissible(snapshot.nodes, intent, Excluding(options, snapshot, path, nodeDisjoint), snapshot.links[i]) <==>
              Admissible(snapshot.nodes, intent, options, snapshot.links[i])
                && EdgeApart(path, snapshot.links[i], nodeDisjoint)
  {
    hide Adjacent, Interior, Snapshot.Valid, Enabled;
    LinkExcluded(snapshot, options, path, nodeDisjoint, i);
    EnabledExcept(snapshot.nodes, options, snapshot, path, nodeDisjoint, snapshot.links[i].source);
    EnabledExcept(snapshot.nodes, options, snapshot, path, nodeDisjoint, snapshot.links[i].target);
  }

  /** Excluding a path removes exactly the links that are not apart from it. */
  lemma EdgesExclude(snapshot: Snapshot, intent: Intent, policy: string, options: Options, path: Path,
                     nodeDisjoint: bool)
    requires snapshot.Valid()
    ensures Edges(snapshot, intent, policy, Excluding(options, snapshot, path, nodeDisjoint)) ==
            OnlyApart(Edges(snapshot, intent, policy, options), path, nodeDisjoint)
  {
    hide Admissible, EdgeApart, Snapshot.Valid, Excluding;
    forall i | 0 <= i < |snapshot.links|
      ensures Admissible(snapshot.nodes, intent, Excluding(options, snapshot, path, nodeDisjoint),
                         snapshot.links[i]) <==>
                Admissible(snapshot.nodes, intent, options, snapshot.links[i])
                  && EdgeApart(path, snapshot.links[i], nodeDisjoint)
    {
      AdmissibleExcept(snapshot, intent, options, path, nodeDisjoint, i);
    }
  }

  lemma {:induction false} PathEdges(edges: set<Edge>, source: string, target: string, p: seq<Edge>, k: nat)
    requires IsPath(edges, source, target, p) && k < |p|
    ensures p[k] in edges
    ensures NodesOf(source, p)[k] == p[k].link.source
    decreases |p|
  {
    var last := |p| - 1;
    EndsAt(edges, source, p[last].link.source, p[..last]);
    if k < last {
      PathEdges(edges, source, p[last].link.source, p[..last], k);
    }
  }

  lemma {:induction false} PathShrink(less: set<Edge>, more: set<Edge>, source: string, target: string, p: seq<Edge>)
    requires IsPath(more, source, target, p) && more <= less
    ensures IsPath(less, source, target, p)
    decreases |p|
  {
    if p != [] {
      PathShrink(less, more, source, p[|p| - 1].link.source, p[..|p| - 1]);
    }
  }

  /** The reasons a search has to fail: there is no path within the limits at all, or the cheapest one
      is too slow. */
  ghost predicate NoAnswer(edges: set<Edge>, intent: Intent) {
    forall q :: Reachable(edges, intent, q) ==> Exceeds(intent, q)
  }

  lemma FailureIsFinal(edges: set<Edge>, intent: Intent, p: seq<Edge>)
    requires Proper(edges)
    requires || (forall q :: IsPath(edges, intent.source, intent.destination, q) ==> Cost(q) >= MAX)
             || (Reachable(edges, intent, p) && Exceeds(intent, p))
    ensures NoAnswer(edges, intent)
  {
    hide Reachable, Exceeds, Proper, IsPath;
    if Reachable(edges, intent, p) && Exceeds(intent, p) {
      forall q | Reachable(edges, intent, q) ensures Exceeds(intent, q) {
        ReachableUnique(edges, intent, p, q);
      }
    } else {
      forall q ensures !Reachable(edges, intent, q) {
        if Reachable(edges, intent, q) {
          ReachableIsPath(edges, intent, q);
        }
      }
    }
  }

  /** Exclude what `primary` uses and search again. The exclusions stay behind for later calls. A
      path without links has no interior to slice, which ends the program. */
  method WithPolicy(snapshot: Snapshot, intent: Intent, policy: string, primary: Path, nodeDisjoint: bool,
                    exclusions: Exclusions, at: Time, maxAge: Time) returns (r: Result<Path>, ghost q: seq<Edge>)
    requires snapshot.Valid() && Ranged(snapshot) && |primary.nodes| >= 1
    modifies exclusions
    ensures exclusions.At(at, maxAge) == Excluding(old(exclusions.At(at, maxAge)), snapshot, primary, nodeDisjoint)
    ensures r.Success? ==>
              && Reachable(Edges(snapshot, intent, policy, exclusions.At(at, maxAge)), intent, q)
              && !Exceeds(intent, q)
              && r.value == PathOf(intent.source, q)
    ensures r.Failure? ==>
              || (nodeDisjoint && |primary.nodes| < 2) || !intent.Valid()
              || !Enabled(snapshot.nodes, exclusions.At(at, maxAge), intent.source)
              || !Enabled(snapshot.nodes, exclusions.At(at, maxAge), intent.destination)
              || NoAnswer(Edges(snapshot, intent, policy, exclusions.At(at, maxAge)), intent)
  {
    hide Snapshot.Valid, Ranged, Edges, Reachable, Exceeds, PathOf, Enabled, Adjacent, NoAnswer, IsPath, Proper;
    exclusions.links := exclusions.links + set id | id in primary.links;
    ExcludeNeighbours(snapshot.links, primary.nodes, exclusions);
    exclusions.groups := exclusions.groups + primary.riskGroups;
    if nodeDisjoint {
      if |primary.nodes| < 2 {
        return Failure("slice bounds out of range"), [];
      }
      var interior := primary.nodes[1..|primary.nodes| - 1];
      InteriorNodes(primary.nodes, interior);
      exclusions.nodes := exclusions.nodes + set n | n in interior;
    }
    ghost var options := exclusions.At(at, maxAge);
    r, q := Shortest(snapshot, intent, policy,
                     Options(at, maxAge, exclusions.links, exclusions.nodes, exclusions.groups));
    EdgesProper(snapshot, intent, policy, options);
    if r.Failure? && intent.Valid() && Enabled(snapshot.nodes, options, intent.source)
      && Enabled(snapshot.nodes, options, intent.destination) {
      FailureIsFinal(Edges(snapshot, intent, policy, options), intent, q);
    }
  }

  /** Also exclude every link between neighbours on the path. */
  method ExcludeNeighbours(links: seq<Link>, nodes: seq<string>, exclusions: Exclusions)
    modifies exclusions
    ensures exclusions.nodes == old(exclusions.nodes) && exclusions.groups == old(exclusions.groups)
    ensures exclusions.links == old(exclusions.links) +
              set i | 0 <= i < |links| && Adjacent(nodes, links[i].source, links[i].target) :: links[i].id
  {
    hide Adjacent;
    var pairs := Neighbours(nodes);
    var i := 0;
    while i < |links|
      invariant 0 <= i <= |links|
      invariant exclusions.nodes == old(exclusions.nodes) && exclusions.groups == old(exclusions.groups)
      invariant exclusions.links == old(exclusions.links) +
        set j | 0 <= j < i && Adjacent(nodes, links[j].source, links[j].target) :: links[j].id
    {
      if (links[i].source, links[i].target) in pairs {
        exclusions.links := exclusions.links + {links[i].id};
      }
      i := i + 1;
    }
  }

  lemma InteriorNodes(nodes: seq<string>, interior: seq<string>)
    requires |nodes| >= 2 && interior == nodes[1..|nodes| - 1]
    ensures (set n | n in interior) == set i | 1 <= i < |nodes| - 1 :: nodes[i]
  {
    forall n | n in interior ensures n in set i | 1 <= i < |nodes| - 1 :: nodes[i] {
      var k :| 0 <= k < |interior| && interior[k] == n;
      assert nodes[k + 1] == n;
    }
    forall i | 1 <= i < |nodes| - 1 ensures nodes[i] in interior {
      assert interior[i - 1] == nodes[i];
    }
  }

  /** The neighbouring pairs of a node list, in both directions. */
  method Neighbours(nodes: seq<string>) returns (pairs: set<(string, string)>)
    ensures forall a, b :: (a, b) in pairs <==> Adjacent(nodes, a, b)
  {
    pairs := {};
    var i := 0;
    while i + 1 < |nodes|
      invariant 0 <= i && (i < |nodes| || nodes == [])
      invariant forall a, b :: (a, b) in pairs <==>
        exists k :: 0 <= k < i && k < |nodes| - 1 &&
          ((nodes[k] == a && nodes[k + 1] == b) || (nodes[k] == b && nodes[k + 1] == a))
    {
      pairs := pairs + {(nodes[i], nodes[i + 1]), (nodes[i + 1], nodes[i])};
      i := i + 1;
    }
  }
}
