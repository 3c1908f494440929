/** Paths over weighted links, and the one path that deterministic tie-breaking singles out. */
module Graph {
  import opened Names
  import opened Fabric

  datatype Edge = Edge(link: Link, cost: int)

  /** Edges with positive cost whose link IDs identify them. */
  ghost predicate Proper(edges: set<Edge>) {
    && (forall e :: e in edges ==> e.cost >= 1)
    && (forall e, f :: e in edges && f in edges && e.link.id == f.link.id ==> e == f)
  }

  ghost predicate IsPath(edges: set<Edge>, source: string, target: string, p: seq<Edge>)
    decreases |p|
  {
    if p == [] then source == target else
      var e := p[|p| - 1];
      e in edges && e.link.target == target && IsPath(edges, source, e.link.source, p[..|p| - 1])
  }

  ghost function Cost(p: seq<Edge>): int {
    if p == [] then 0 else Cost(p[..|p| - 1]) + p[|p| - 1].cost
  }

  /** The nodes a path visits, its source first. */
  function NodesOf(source: string, p: seq<Edge>): (r: seq<string>)
    ensures |r| == |p| + 1 && r[0] == source
    ensures forall i :: 0 <= i < |p| ==> r[i + 1] == p[i].link.target
  {
    if p == [] then [source] else NodesOf(source, p[..|p| - 1]) + [p[|p| - 1].link.target]
  }

  ghost predicate Cheapest(edges: set<Edge>, source: string, target: string, p: seq<Edge>) {
    IsPath(edges, source, target, p) && forall q :: IsPath(edges, source, target, q) ==> Cost(p) <= Cost(q)
  }

  /** A cheapest path whose last link has the smallest ID among the last links of all cheapest
      paths, and so on backwards to the source. */
  ghost predicate Canonical(edges: set<Edge>, source: string, target: string, p: seq<Edge>)
    decreases |p|
  {
    && Cheapest(edges, source, target, p)
    && (p != [] ==>
          && Canonical(edges, source, p[|p| - 1].link.source, p[..|p| - 1])
          && forall q: seq<Edge> :: IsPath(edges, source, target, q) && q != [] && Cost(q) == Cost(p) ==>
               !Less(q[|q| - 1].link.id, p[|p| - 1].link.id))
  }

  lemma {:induction false} CostPositive(edges: set<Edge>, source: string, target: string, p: seq<Edge>)
    requires Proper(edges) && IsPath(edges, source, target, p)
    ensures Cost(p) >= |p|
    decreases |p|
  {
    if p != [] {
      CostPositive(edges, source, p[|p| - 1].link.source, p[..|p| - 1]);
    }
  }

  /** There is at most one canonical path. */
  lemma {:induction false} CanonicalUnique(edges: set<Edge>, source: string, target: string, p: seq<Edge>, q: seq<Edge>)
    requires Proper(edges) && Canonical(edges, source, target, p) && Canonical(edges, source, target, q)
    ensures p == q
    decreases |p|
  {
    assert Cost(p) == Cost(q);
    CostPositive(edges, source, target, p);
    CostPositive(edges, source, target, q);
    if p != [] && q != [] {
      var e, f := p[|p| - 1], q[|q| - 1];
      LessConnected(e.link.id, f.link.id);
      assert e == f;
      CanonicalUnique(edges, source, e.link.source, p[..|p| - 1], q[..|q| - 1]);
      assert p == p[..|p| - 1] + [e] && q == q[..|q| - 1] + [f];
    }
  }

  /** Canonical paths visit no node twice. */
  lemma {:induction false} CanonicalSimple(edges: set<Edge>, source: string, target: string, p: seq<Edge>)
    requires Proper(edges) && Canonical(edges, source, target, p)
    ensures forall i, j :: 0 <= i < j < |NodesOf(source, p)| ==> NodesOf(source, p)[i] != NodesOf(source, p)[j]
    decreases |p|
  {
    if p != [] {
      var front := p[..|p| - 1];
      CanonicalSimple(edges, source, p[|p| - 1].link.source, front);
      forall i | 0 <= i < |p| ensures NodesOf(source, p)[i] != target {
        PrefixCanonical(edges, source, target, p, i);
        if NodesOf(source, p)[i] == target {
          PrefixCheaper(edges, source, target, p, i);
        }
      }
    }
  }

  lemma {:induction false} PrefixCanonical(edges: set<Edge>, source: string, target: string, p: seq<Edge>, i: nat)
    requires Canonical(edges, source, target, p) && i <= |p|
    ensures Canonical(edges, source, NodesOf(source, p)[i], p[..i])
    decreases |p|
  {
    EndsAt(edges, source, target, p);
    if i == |p| {
      assert p[..i] == p;
    } else {
      var front := p[..|p| - 1];
      PrefixCanonical(edges, source, p[|p| - 1].link.source, front, i);
      assert front[..i] == p[..i];
    }
  }

  lemma {:induction false} EndsAt(edges: set<Edge>, source: string, target: string, p: seq<Edge>)
    requires IsPath(edges, source, target, p)
    ensures NodesOf(source, p)[|p|] == target
  {
  }

  lemma {:induction false} PrefixCheaper(edges: set<Edge>, source: string, target: string, p: seq<Edge>, i: nat)
    requires Proper(edges) && IsPath(edges, source, target, p) && i < |p|
    ensures Cost(p[..i]) < Cost(p)
    decreases |p|
  {
    var front := p[..|p| - 1];
    if i == |front| {
      assert p[..i] == front;
    } else {
      PrefixCheaper(edges, source, p[|p| - 1].link.source, front, i);
      assert front[..i] == p[..i];
    }
  }
}
