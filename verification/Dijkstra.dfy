/** The label-setting search: a lazy priority queue whose equal entries come out in any order, an
    overflow guard, and tie-breaking by link ID. */
module Dijkstra {
  import opened Names
  import opened Fabric
  import opened Graph

  datatype Item = Item(node: string, dist: int)

  type Distances = map<string, int>
  type Previous = map<string, Edge>

  /** Every label is realised by the link recorded for it, whose source has been settled. */
  ghost predicate Labelled(edges: set<Edge>, source: string, done: set<string>, dist: Distances, prev: Previous) {
    && done <= dist.Keys && prev.Keys <= dist.Keys
    && source in dist && dist[source] == 0 && source !in prev
    && (forall v :: v in dist ==> 0 <= dist[v] <= MAX)
    && (forall v :: v in dist && dist[v] < MAX && v != source ==> v in prev)
    && (forall v :: v in prev ==>
          && prev[v] in edges && prev[v].link.target == v && prev[v].link.source in done
          && dist[prev[v].link.source] + prev[v].cost == dist[v] < MAX)
  }

  /** The label of the target of `e` accounts for `e`. */
  ghost predicate Relaxed(e: Edge, dist: Distances, prev: Previous)
    requires e.link.source in dist && e.link.target in dist
  {
    var via := dist[e.link.source] + e.cost;
    && dist[e.link.target] <= via
    && (dist[e.link.target] == via < MAX && e.link.target in prev ==> !Less(e.link.id, prev[e.link.target].link.id))
  }

  /** Every edge out of a settled node is accounted for, except those in `rest`, and no open label
      is below a settled one. */
  ghost predicate Settled(edges: set<Edge>, done: set<string>, dist: Distances, prev: Previous, rest: set<Edge>) {
    && done <= dist.Keys
    && (forall e :: e in edges && e.link.source in done && e !in rest ==>
            e.link.target in dist && Relaxed(e, dist, prev))
    && (forall u, v :: u in done && v in dist && v !in done ==> dist[u] <= dist[v])
  }

  ghost predicate Closed(edges: set<Edge>, nodes: set<string>) {
    forall e :: e in edges ==> e.link.source in nodes && e.link.target in nodes
  }

  ghost predicate Queued(queue: multiset<Item>, done: set<string>, dist: Distances) {
    && (forall v :: v in dist && v !in done && dist[v] < MAX ==> Item(v, dist[v]) in queue)
    && (forall x :: x in queue ==> x.node in dist && dist[x.node] <= x.dist)
  }

  /** Every path cheaper than the first open label ends in a settled node and costs no less than
      its label. */
  lemma {:induction false} SettledBound(edges: set<Edge>, source: string, done: set<string>, dist: Distances,
                                        prev: Previous, bound: int, v: string, q: seq<Edge>)
    requires Proper(edges) && Labelled(edges, source, done, dist, prev) && Settled(edges, done, dist, prev, {})
    requires Closed(edges, dist.Keys)
    requires forall u :: u in dist && dist[u] < bound ==> u in done
    requires IsPath(edges, source, v, q)
    ensures v in dist && (Cost(q) < bound ==> v in done) && (Cost(q) <= bound ==> dist[v] <= Cost(q))
    decreases |q|
  {
    if q != [] {
      var e := q[|q| - 1];
      SettledBound(edges, source, done, dist, prev, bound, e.link.source, q[..|q| - 1]);
      CostPositive(edges, source, e.link.source, q[..|q| - 1]);
    }
  }

  /** The links recorded on the way back from `v`. */
  ghost function Back(edges: set<Edge>, source: string, done: set<string>, dist: Distances, prev: Previous,
                      v: string): seq<Edge>
    requires Proper(edges) && Labelled(edges, source, done, dist, prev) && v in dist && dist[v] < MAX
    decreases dist[v]
  {
    if v == source then [] else Back(edges, source, done, dist, prev, prev[v].link.source) + [prev[v]]
  }

  lemma BackStep(edges: set<Edge>, source: string, done: set<string>, dist: Distances, prev: Previous, v: string)
    requires Proper(edges) && Labelled(edges, source, done, dist, prev) && v in dist && dist[v] < MAX && v != source
    ensures v in prev && prev[v].link.source in dist && 0 <= dist[prev[v].link.source] < dist[v]
    ensures Back(edges, source, done, dist, prev, v)
              == Back(edges, source, done, dist, prev, prev[v].link.source) + [prev[v]]
  {
  }

  lemma BackEnd(edges: set<Edge>, source: string, done: set<string>, dist: Distances, prev: Previous)
    requires Proper(edges) && Labelled(edges, source, done, dist, prev)
    ensures source in dist && dist[source] < MAX && Back(edges, source, done, dist, prev, source) == []
  {
  }

  lemma {:induction false} BackIsPath(edges: set<Edge>, source: string, done: set<string>, dist: Distances,
                                      prev: Previous, v: string)
    requires Proper(edges) && Labelled(edges, source, done, dist, prev) && v in dist && dist[v] < MAX
    ensures IsPath(edges, source, v, Back(edges, source, done, dist, prev, v))
    ensures Cost(Back(edges, source, done, dist, prev, v)) == dist[v]
    decreases dist[v]
  {
    if v != source {
      BackIsPath(edges, source, done, dist, prev, prev[v].link.source);
      var p, front := Back(edges, source, done, dist, prev, v),
        Back(edges, source, done, dist, prev, prev[v].link.source);
      assert p[..|p| - 1] == front;
    }
  }

  ghost predicate Final(edges: set<Edge>, source: string, done: set<string>, dist: Distances, prev: Previous,
                        bound: int)
  {
    && Labelled(edges, source, done, dist, prev) && Settled(edges, done, dist, prev, {}) && Closed(edges, dist.Keys)
    && forall u :: u in dist && dist[u] < bound ==> u in done
  }

  lemma FinalLabels(edges: set<Edge>, source: string, done: set<string>, dist: Distances, prev: Previous, bound: int)
    requires Final(edges, source, done, dist, prev, bound)
    ensures Labelled(edges, source, done, dist, prev) && forall v :: v in dist ==> 0 <= dist[v] <= MAX
  {
  }

  /** Once everything below `bound` is settled, following the recorded links back from any label up
      to `bound` gives the canonical path. */
  lemma {:induction false} BackCanonical(edges: set<Edge>, source: string, done: set<string>, dist: Distances,
                                         prev: Previous, bound: int, v: string)
    requires Proper(edges) && Final(edges, source, done, dist, prev, bound)
    requires v in dist && dist[v] < MAX && dist[v] <= bound
    ensures Canonical(edges, source, v, Back(edges, source, done, dist, prev, v))
    decreases dist[v]
  {
    var p := Back(edges, source, done, dist, prev, v);
    BackIsPath(edges, source, done, dist, prev, v);
    forall q | IsPath(edges, source, v, q) ensures Cost(p) <= Cost(q) {
      SettledBound(edges, source, done, dist, prev, bound, v, q);
    }
    if v != source {
      BackCanonical(edges, source, done, dist, prev, bound, prev[v].link.source);
      assert p[..|p| - 1] == Back(edges, source, done, dist, prev, prev[v].link.source) && p[|p| - 1] == prev[v];
      forall q: seq<Edge> | IsPath(edges, source, v, q) && q != [] && Cost(q) == Cost(p)
        ensures !Less(q[|q| - 1].link.id, p[|p| - 1].link.id)
      {
        LastTight(edges, source, done, dist, prev, bound, v, q);
      }
    }
  }

  lemma LastTight(edges: set<Edge>, source: string, done: set<string>, dist: Distances, prev: Previous, bound: int,
                  v: string, q: seq<Edge>)
    requires Proper(edges) && Final(edges, source, done, dist, prev, bound)
    requires v in dist && dist[v] < MAX && dist[v] <= bound && v in prev
    requires IsPath(edges, source, v, q) && q != [] && Cost(q) == dist[v]
    ensures !Less(q[|q| - 1].link.id, prev[v].link.id)
  {
    var e, front := q[|q| - 1], q[..|q| - 1];
    SettledBound(edges, source, done, dist, prev, bound, e.link.source, front);
    assert e.link.source in done && Relaxed(e, dist, prev);
  }

  /** A label of MAX after the search means that no path costs less. */
  lemma NothingBelow(edges: set<Edge>, source: string, done: set<string>, dist: Distances, prev: Previous,
                     target: string)
    requires Proper(edges) && Final(edges, source, done, dist, prev, MAX) && target in dist && dist[target] == MAX
    ensures forall q :: IsPath(edges, source, target, q) ==> Cost(q) >= MAX
  {
    forall q | IsPath(edges, source, target, q) ensures Cost(q) >= MAX {
      SettledBound(edges, source, done, dist, prev, MAX, target, q);
    }
  }

  // ---- the loop ------------------------------------------------------------------------------

  ghost predicate IsMin(x: Item, queue: multiset<Item>) {
    x in queue && forall y :: y in queue ==> x.dist <= y.dist
  }

  lemma {:induction false} MinExists(queue: multiset<Item>) returns (x: Item)
    requires |queue| > 0
    ensures IsMin(x, queue)
    decreases |queue|
  {
    var y :| y in queue;
    var rest := queue - multiset{y};
    assert forall w :: w in queue ==> w == y || w in rest;
    x := y;
    if |rest| == 0 {
      assert rest == multiset{};
    } else {
      var z := MinExists(rest);
      x := if z.dist < y.dist then z else y;
    }
  }

  /** An edge changes its target's label when it is shorter, or equally short with a smaller ID. */
  predicate Improves(e: Edge, dist: Distances, prev: Previous)
    requires e.link.source in dist && e.link.target in dist
  {
    var next := dist[e.link.source] + e.cost;
    dist[e.link.source] <= MAX - e.cost &&
    (next < dist[e.link.target] ||
     (next == dist[e.link.target] && e.link.target in prev && Less(e.link.id, prev[e.link.target].link.id)))
  }

  lemma Unimproved(e: Edge, dist: Distances, prev: Previous)
    requires e.link.source in dist && e.link.target in dist && dist[e.link.target] <= MAX
    requires e.link.target in prev ==> dist[e.link.target] < MAX
    ensures !Improves(e, dist, prev) <==> Relaxed(e, dist, prev)
  {
  }

  /** The situation in which a settled node of greatest label relaxes its edge `e`. */
  ghost predicate Relaxing(edges: set<Edge>, source: string, done: set<string>, dist: Distances, prev: Previous,
                           queue: multiset<Item>, rest: set<Edge>)
  {
    && Proper(edges) && Closed(edges, dist.Keys)
    && Labelled(edges, source, done, dist, prev) && Settled(edges, done, dist, prev, rest)
    && Queued(queue, done, dist)
  }

  lemma ImprovedOpen(edges: set<Edge>, source: string, done: set<string>, dist: Distances, prev: Previous, e: Edge)
    requires Proper(edges) && Labelled(edges, source, done, dist, prev) && Closed(edges, dist.Keys)
    requires e in edges && e.link.source in done && Improves(e, dist, prev)
    requires forall x :: x in done ==> dist[x] <= dist[e.link.source]
    ensures e.link.target !in done && e.link.target != source
    ensures dist[e.link.source] < dist[e.link.source] + e.cost <= dist[e.link.target]
    ensures dist[e.link.source] + e.cost < MAX
  {
  }

  lemma ImprovedLabels(edges: set<Edge>, source: string, done: set<string>, dist: Distances, prev: Previous, e: Edge)
    requires Labelled(edges, source, done, dist, prev) && Closed(edges, dist.Keys)
    requires e in edges && e.link.source in done && e.link.target !in done && e.link.target != source
    requires 0 <= dist[e.link.source] + e.cost < MAX
    ensures Labelled(edges, source, done, dist[e.link.target := dist[e.link.source] + e.cost], prev[e.link.target := e])
  {
  }

  lemma ImprovedSettled(edges: set<Edge>, source: string, done: set<string>, dist: Distances, prev: Previous,
                        rest: set<Edge>, e: Edge)
    requires Labelled(edges, source, done, dist, prev) && Closed(edges, dist.Keys)
             && Settled(edges, done, dist, prev, rest)
    requires e in edges && e.link.source in done && e.link.target !in done && Improves(e, dist, prev)
    requires forall x :: x in done ==> dist[x] <= dist[e.link.source] < dist[e.link.source] + e.cost
    ensures Settled(edges, done, dist[e.link.target := dist[e.link.source] + e.cost], prev[e.link.target := e],
                    rest - {e})
  {
    hide Relaxed, Less, Labelled;
    var t, next := e.link.target, dist[e.link.source] + e.cost;
    var dist', prev' := dist[t := next], prev[t := e];
    forall f | f in edges && f.link.source in done && f !in rest - {e}
      ensures f.link.target in dist' && Relaxed(f, dist', prev')
    {
      if f == e {
        NowRelaxed(dist, prev, e);
      } else {
        StillRelaxed(f, dist, prev, e);
      }
    }
  }

  lemma NowRelaxed(dist: Distances, prev: Previous, e: Edge)
    requires e.link.source in dist && e.link.target in dist && e.link.source != e.link.target
    ensures Relaxed(e, dist[e.link.target := dist[e.link.source] + e.cost], prev[e.link.target := e])
  {
    LessIrreflexive(e.link.id);
  }

  lemma StillRelaxed(f: Edge, dist: Distances, prev: Previous, e: Edge)
    requires f.link.source in dist && e.link.source in dist && f.link.target in dist && e.link.target in dist
    requires f.link.source != e.link.target
    requires Relaxed(f, dist, prev) && Improves(e, dist, prev)
    ensures Relaxed(f, dist[e.link.target := dist[e.link.source] + e.cost], prev[e.link.target := e])
  {
    var t := e.link.target;
    if t in prev && dist[e.link.source] + e.cost == dist[t] && Less(e.link.id, prev[t].link.id)
      && !Less(f.link.id, prev[t].link.id) {
      NotLessTransitive(f.link.id, prev[t].link.id, e.link.id);
    }
  }

  lemma ImprovedQueue(queue: multiset<Item>, done: set<string>, dist: Distances, t: string, next: int)
    requires Queued(queue, done, dist) && t in dist && t !in done && next <= dist[t]
    ensures Queued(queue + multiset{Item(t, next)}, done, dist[t := next])
  {
  }

  /** Recording an improvement keeps everything but `e` as it was, and settles `e`. */
  lemma Improved(edges: set<Edge>, source: string, done: set<string>, dist: Distances, prev: Previous,
                 queue: multiset<Item>, rest: set<Edge>, e: Edge)
    requires Relaxing(edges, source, done, dist, prev, queue, rest)
    requires e in edges && e in rest && e.link.source in done && e.link.source in dist && e.link.target in dist
    requires Improves(e, dist, prev)
    requires forall x :: x in done && x in dist ==> dist[x] <= dist[e.link.source]
    ensures var t, next := e.link.target, dist[e.link.source] + e.cost;
            && t !in done
            && Relaxing(edges, source, done, dist[t := next], prev[t := e], queue + multiset{Item(t, next)}, rest - {e})
  {
    hide Labelled, Settled, Queued, Improves, Proper;
    LabelledKeys(edges, source, done, dist, prev);
    ImprovedOpen(edges, source, done, dist, prev, e);
    ImprovedLabels(edges, source, done, dist, prev, e);
    ImprovedSettled(edges, source, done, dist, prev, rest, e);
    ImprovedQueue(queue, done, dist, e.link.target, dist[e.link.source] + e.cost);
  }

  lemma LabelledKeys(edges: set<Edge>, source: string, done: set<string>, dist: Distances, prev: Previous)
    requires Labelled(edges, source, done, dist, prev)
    ensures done <= dist.Keys && forall v :: v in dist ==> 0 <= dist[v] <= MAX
  {
  }

  lemma NotLessTransitive(a: string, b: string, c: string)
    requires !Less(a, b) && Less(c, b)
    ensures !Less(a, c)
  {
    if Less(a, c) {
      LessTransitive(a, c, b);
    }
  }

  /** The edges with a positive cost. The others have overflowed. */
  ghost function Priced(raw: set<Edge>): set<Edge> {
    set e | e in raw && e.cost >= 1
  }

  /** No cost is zero, and all are 64-bit integers. */
  ghost predicate Costed(raw: set<Edge>) {
    forall e :: e in raw ==> e.cost != 0 && Int64(e.cost)
  }

  /** The overflow guard, itself in 64-bit arithmetic, turns every overflowed cost away. */
  lemma GuardHolds(dist: int, cost: int)
    requires 0 <= dist <= MAX && cost != 0 && Int64(cost)
    ensures dist > Wrap64(MAX - cost) <==> cost < 0 || dist > MAX - cost
  {
    if cost < 0 {
      assert Wrap64(MAX - cost) == MAX - cost - 0x1_0000_0000_0000_0000;
    } else {
      assert Wrap64(MAX - cost) == MAX - cost;
    }
  }

  /** Relax every edge out of the settled node `u`, in any order. */
  method Relax(raw: set<Edge>, ghost source: string, ghost done: set<string>, u: string,
               dist0: Distances, prev0: Previous, queue0: multiset<Item>)
    returns (dist: Distances, prev: Previous, queue: multiset<Item>)
    requires u in done && u in dist0 && Costed(raw) && Closed(raw, dist0.Keys)
    requires Settled(Priced(raw), done, dist0, prev0, {})
             || forall x :: x in done && x in dist0 ==> dist0[x] <= dist0[u]
    requires Relaxing(Priced(raw), source, done, dist0, prev0, queue0, set e | e in Priced(raw) && e.link.source == u)
    ensures Relaxing(Priced(raw), source, done, dist, prev, queue, {}) && dist.Keys == dist0.Keys
    ensures Settled(Priced(raw), done, dist0, prev0, {}) ==> dist == dist0 && prev == prev0 && queue == queue0
  {
    hide Labelled, Settled, Queued, Improves, Proper, Relaxing, Relaxed, Less, Wrap64;
    dist, prev, queue := dist0, prev0, queue0;
    ghost var edges := Priced(raw);
    var rest := set e | e in raw && e.link.source == u;
    RelaxingMore(edges, source, done, dist, prev, queue, (set e | e in edges && e.link.source == u), rest);
    while rest != {}
      invariant rest <= set e | e in raw && e.link.source == u
      invariant Relaxing(edges, source, done, dist, prev, queue, rest) && dist.Keys == dist0.Keys
      invariant u in dist && (Settled(edges, done, dist0, prev0, {})
                              || forall x :: x in done && x in dist ==> dist[x] <= dist[u])
      invariant Settled(edges, done, dist0, prev0, {}) ==> dist == dist0 && prev == prev0 && queue == queue0
      decreases |rest|
    {
      var e :| e in rest;
      RelaxingLabels(edges, source, done, dist, prev, queue, rest, u);
      GuardHolds(dist[u], e.cost);
      if dist[u] > Wrap64(MAX - e.cost) {
        Guarded(edges, source, done, dist, prev, queue, rest, e);
        rest := rest - {e};
        continue;
      }
      var t, next := e.link.target, dist[u] + e.cost;
      if next < dist[t] || (next == dist[t] && t in prev && Less(e.link.id, prev[t].link.id)) {
        Improvement(e, dist, prev);
        AlreadySettled(edges, source, done, dist, prev, queue, rest, e);
        Improved(edges, source, done, dist, prev, queue, rest, e);
        dist, prev, queue := dist[t := next], prev[t := e], queue + multiset{Item(t, next)};
      } else {
        Improvement(e, dist, prev);
        Passed(edges, source, done, dist, prev, queue, rest, e);
      }
      rest := rest - {e};
    }
  }

  lemma Improvement(e: Edge, dist: Distances, prev: Previous)
    requires e.link.source in dist && e.link.target in dist && dist[e.link.source] <= MAX - e.cost
    ensures var t, next := e.link.target, dist[e.link.source] + e.cost;
            Improves(e, dist, prev) <==>
                next < dist[t] || (next == dist[t] && t in prev && Less(e.link.id, prev[t].link.id))
  {
  }

  lemma RelaxingMore(edges: set<Edge>, source: string, done: set<string>, dist: Distances, prev: Previous,
                     queue: multiset<Item>, rest: set<Edge>, more: set<Edge>)
    requires Relaxing(edges, source, done, dist, prev, queue, rest) && rest <= more
    ensures Relaxing(edges, source, done, dist, prev, queue, more)
  {
    hide Relaxed, Labelled, Queued, Proper;
  }

  lemma RelaxingLabels(edges: set<Edge>, source: string, done: set<string>, dist: Distances, prev: Previous,
                       queue: multiset<Item>, rest: set<Edge>, u: string)
    requires Relaxing(edges, source, done, dist, prev, queue, rest) && u in dist
    ensures 0 <= dist[u] <= MAX && done <= dist.Keys
  {
    hide Settled, Queued, Proper;
  }

  lemma Guarded(edges: set<Edge>, source: string, done: set<string>, dist: Distances, prev: Previous,
                queue: multiset<Item>, rest: set<Edge>, e: Edge)
    requires Relaxing(edges, source, done, dist, prev, queue, rest) && e.link.source in dist && e.link.target in dist
    requires e !in edges || dist[e.link.source] > MAX - e.cost
    ensures Relaxing(edges, source, done, dist, prev, queue, rest - {e})
  {
    hide Labelled, Queued, Proper;
    if e in edges {
      Passed(edges, source, done, dist, prev, queue, rest, e);
    }
  }

  lemma AlreadySettled(edges: set<Edge>, source: string, done: set<string>, dist: Distances, prev: Previous,
                       queue: multiset<Item>, rest: set<Edge>, e: Edge)
    requires Relaxing(edges, source, done, dist, prev, queue, rest)
    requires e in edges && e.link.source in done && e.link.source in dist && e.link.target in dist
             && Improves(e, dist, prev)
    ensures !Settled(edges, done, dist, prev, {})
  {
    Unimproved(e, dist, prev);
  }

  lemma Passed(edges: set<Edge>, source: string, done: set<string>, dist: Distances, prev: Previous,
               queue: multiset<Item>, rest: set<Edge>, e: Edge)
    requires Relaxing(edges, source, done, dist, prev, queue, rest)
    requires e in edges && e.link.source in dist && e.link.target in dist && !Improves(e, dist, prev)
    ensures Relaxing(edges, source, done, dist, prev, queue, rest - {e})
  {
    Unimproved(e, dist, prev);
  }

  /** The state of the search loop. */
  lemma Begin(edges: set<Edge>, nodes: set<string>, source: string, dist: Distances)
    requires Proper(edges) && Closed(edges, nodes) && source in nodes
    requires dist == (map v | v in nodes :: if v == source then 0 else MAX)
    ensures Relaxing(edges, source, {}, dist, map[], multiset{Item(source, 0)}, {}) && dist.Keys == nodes
  {
  }

  lemma NearestOpen(queue: multiset<Item>, done: set<string>, dist: Distances, x: Item)
    requires Queued(queue, done, dist) && IsMin(x, queue) && x.node in dist && x.dist == dist[x.node]
    requires forall v :: v in dist ==> dist[v] <= MAX
    ensures forall v :: v in dist && v !in done ==> dist[x.node] <= dist[v]
  {
    forall v | v in dist && v !in done && dist[v] < MAX ensures dist[x.node] <= dist[v] {
      assert Item(v, dist[v]) in queue;
    }
  }

  lemma SettleLabels(edges: set<Edge>, source: string, done: set<string>, dist: Distances, prev: Previous, u: string)
    requires Labelled(edges, source, done, dist, prev) && u in dist
    ensures Labelled(edges, source, done + {u}, dist, prev)
  {
  }

  lemma SettleEdges(edges: set<Edge>, done: set<string>, dist: Distances, prev: Previous, u: string)
    requires Settled(edges, done, dist, prev, {}) && u in dist && u !in done
    requires forall v :: v in dist && v !in done ==> dist[u] <= dist[v]
    ensures Settled(edges, done + {u}, dist, prev, set e | e in edges && e.link.source == u)
    ensures forall y :: y in done + {u} && y in dist ==> dist[y] <= dist[u]
  {
  }

  lemma SettleQueue(queue: multiset<Item>, done: set<string>, dist: Distances, x: Item)
    requires Queued(queue, done, dist) && x in queue
    ensures Queued(queue - multiset{x}, done + {x.node}, dist)
  {
  }

  /** The popped node can be settled: nothing open is closer. */
  lemma Settle(edges: set<Edge>, source: string, done: set<string>, dist: Distances, prev: Previous,
               queue: multiset<Item>, x: Item)
    requires Relaxing(edges, source, done, dist, prev, queue, {}) && IsMin(x, queue)
    requires x.node in dist && x.dist == dist[x.node] && x.node !in done
    ensures Relaxing(edges, source, done + {x.node}, dist, prev, queue - multiset{x},
                     set e | e in edges && e.link.source == x.node)
    ensures forall y :: y in done + {x.node} && y in dist ==> dist[y] <= dist[x.node]
    ensures forall u :: u in dist && dist[u] < dist[x.node] ==> u in done
  {
    hide Labelled, Settled, Queued, Proper, Closed;
    LabelledKeys(edges, source, done, dist, prev);
    NearestOpen(queue, done, dist, x);
    SettleLabels(edges, source, done, dist, prev, x.node);
    SettleEdges(edges, done, dist, prev, x.node);
    SettleQueue(queue, done, dist, x);
  }

  lemma Stale(edges: set<Edge>, source: string, done: set<string>, dist: Distances, prev: Previous,
              queue: multiset<Item>, x: Item)
    requires Relaxing(edges, source, done, dist, prev, queue, {}) && x in queue
    requires x.node in dist ==> x.dist != dist[x.node] || x.node in done
    ensures x.node in dist
    ensures Relaxing(edges, source, done, dist, prev, queue - multiset{x}, {})
    ensures Relaxing(edges, source, done, dist, prev, queue - multiset{x},
                     set e | e in edges && e.link.source == x.node)
  {
  }

  lemma PopTarget(edges: set<Edge>, source: string, done: set<string>, dist: Distances, prev: Previous,
                  queue: multiset<Item>, x: Item)
    requires Relaxing(edges, source, done, dist, prev, queue, {}) && IsMin(x, queue)
    requires x.node in dist && x.dist == dist[x.node]
    ensures Final(edges, source, done, dist, prev, dist[x.node])
  {
    hide Settled, Queued, Proper;
    NearestOpen(queue, done, dist, x);
  }

  lemma Exhausted(edges: set<Edge>, source: string, done: set<string>, dist: Distances, prev: Previous)
    requires Relaxing(edges, source, done, dist, prev, multiset{}, {})
    ensures Final(edges, source, done, dist, prev, MAX)
  {
  }

  lemma Weaken(edges: set<Edge>, source: string, done: set<string>, dist: Distances, prev: Previous, target: string)
    requires Final(edges, source, done, dist, prev, MAX) && target in dist
    ensures Final(edges, source, done, dist, prev, dist[target])
  {
  }

  /** The popped node is settled now if it was not before. */
  lemma Turn(edges: set<Edge>, source: string, done: set<string>, dist: Distances, prev: Previous,
             queue: multiset<Item>, x: Item)
    requires Relaxing(edges, source, done, dist, prev, queue, {}) && IsMin(x, queue)
    requires x.node in dist && x.dist == dist[x.node]
    ensures Relaxing(edges, source, done + {x.node}, dist, prev, queue - multiset{x},
                     set e | e in edges && e.link.source == x.node)
    ensures || (x.node in done && Settled(edges, done + {x.node}, dist, prev, {}))
            || (x.node !in done && forall y :: y in done + {x.node} && y in dist ==> dist[y] <= dist[x.node])
  {
    hide Labelled, Settled, Queued, Proper, Closed, Relaxing, IsMin;
    if x.node in done {
      InQueue(queue, x);
      Stale(edges, source, done, dist, prev, queue, x);
      QueueKeys(edges, source, done, dist, prev, queue, x);
      assert done + {x.node} == done;
    } else {
      Settle(edges, source, done, dist, prev, queue, x);
    }
  }

  lemma MinInQueue(queue: multiset<Item>, x: Item)
    requires IsMin(x, queue)
    ensures x in queue && forall y :: y in queue ==> x.dist <= y.dist
  {
  }

  lemma MinFound(queue: multiset<Item>, x: Item)
    requires x in queue && forall y :: y in queue ==> x.dist <= y.dist
    ensures IsMin(x, queue)
  {
  }

  lemma InQueue(queue: multiset<Item>, x: Item)
    requires IsMin(x, queue)
    ensures x in queue
  {
  }

  /** The search, up to the moment the target is popped or nothing is left. */
  method Search(nodes: set<string>, raw: set<Edge>, source: string, target: string)
    returns (dist: Distances, prev: Previous, ghost done: set<string>)
    requires Proper(Priced(raw)) && Costed(raw) && Closed(raw, nodes) && source in nodes && target in nodes
    ensures target in dist && Final(Priced(raw), source, done, dist, prev, dist[target])
  {
    hide Labelled, Settled, Queued, Proper, Closed, Relaxing, Final, Costed, Priced, IsMin;
    ghost var edges := Priced(raw);
    PricedClosed(raw, nodes);
    dist, prev, done := map v | v in nodes :: if v == source then 0 else MAX, map[], {};
    Begin(edges, nodes, source, dist);
    var queue := multiset{Item(source, 0)};
    while |queue| > 0
      invariant Relaxing(edges, source, done, dist, prev, queue, {}) && dist.Keys == nodes
      decreases |nodes - done|, |queue|
    {
      ghost var least := MinExists(queue);
      MinInQueue(queue, least);
      var x :| x in queue && forall y :: y in queue ==> x.dist <= y.dist;
      MinFound(queue, x);
      QueueKeys(edges, source, done, dist, prev, queue, x);
      if x.dist != dist[x.node] {
        Stale(edges, source, done, dist, prev, queue, x);
        queue := queue - multiset{x};
        continue;
      }
      if x.node == target {
        PopTarget(edges, source, done, dist, prev, queue, x);
        return;
      }
      Turn(edges, source, done, dist, prev, queue, x);
      NewlyDone(nodes, done, x.node);
      queue, done := queue - multiset{x}, done + {x.node};
      dist, prev, queue := Relax(raw, source, done, x.node, dist, prev, queue);
    }
    assert queue == multiset{};
    Exhausted(edges, source, done, dist, prev);
    Weaken(edges, source, done, dist, prev, target);
  }

  lemma PricedClosed(raw: set<Edge>, nodes: set<string>)
    requires Closed(raw, nodes)
    ensures Closed(Priced(raw), nodes)
  {
  }

  lemma QueueKeys(edges: set<Edge>, source: string, done: set<string>, dist: Distances, prev: Previous,
                  queue: multiset<Item>, x: Item)
    requires Relaxing(edges, source, done, dist, prev, queue, {}) && x in queue
    ensures x.node in dist && Settled(edges, done, dist, prev, {})
  {
  }

  lemma NewlyDone(nodes: set<string>, done: set<string>, u: string)
    requires u in nodes
    ensures if u in done then done + {u} == done else |nodes - (done + {u})| < |nodes - done|
  {
    if u !in done {
      assert nodes - done == (nodes - (done + {u})) + {u};
    }
  }
}
