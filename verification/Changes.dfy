/** Which destination prefixes change from one plan to the next. */
module Changes {
  import opened Names
  import opened Fabric

  function RoutesTo(routes: seq<Route>, prefix: string): (r: seq<Route>)
    ensures forall x :: x in r <==> x in routes && x.prefix == prefix
  {
    if routes == [] then [] else
      var last := routes[|routes| - 1];
      RoutesTo(routes[..|routes| - 1], prefix) + if last.prefix == prefix then [last] else []
  }

  /** The plans list different routes for the prefix. */
  ghost predicate Differs(a: Plan, b: Plan, prefix: string) {
    SortRoutes(RoutesTo(a.routes, prefix)) != SortRoutes(RoutesTo(b.routes, prefix))
  }

  /** The prefixes that change, each once, in order. */
  ghost predicate Lists(changed: seq<string>, a: Plan, b: Plan) {
    Ordered(changed, Less) && forall p :: p in changed <==> Differs(a, b, p)
  }

  ghost predicate Grouped(groups: map<string, seq<Route>>, routes: seq<Route>) {
    && (forall p :: p in groups ==> groups[p] == RoutesTo(routes, p))
    && forall p :: RoutesTo(routes, p) != [] ==> p in groups
  }

  function GroupOf(groups: map<string, seq<Route>>, prefix: string): seq<Route> {
    if prefix in groups then groups[prefix] else []
  }

  method Group(routes: seq<Route>) returns (groups: map<string, seq<Route>>)
    ensures Grouped(groups, routes)
  {
    groups := map[];
    for i := 0 to |routes|
      invariant Grouped(groups, routes[..i])
    {
      assert routes[..i + 1][..i] == routes[..i];
      groups := groups[routes[i].prefix := GroupOf(groups, routes[i].prefix) + [routes[i]]];
    }
    assert routes[..|routes|] == routes;
  }

  /** Compare two groups in their listing order. */
  method SameRoutes(a: seq<Route>, b: seq<Route>) returns (same: bool)
    ensures same <==> SortRoutes(a) == SortRoutes(b)
  {
    hide SortRoutes;
    if |a| != |b| {
      assert |SortRoutes(a)| != |SortRoutes(b)|;
      return false;
    }
    var s, t := SortRoutes(a), SortRoutes(b);
    for i := 0 to |s|
      invariant s[..i] == t[..i]
    {
      if s[i] != t[i] {
        return false;
      }
    }
    assert s[..|s|] == s && t[..|t|] == t;
    return true;
  }

  /** Add the prefixes among `keys` whose groups differ. */
  method Collect(keys: set<string>, left: map<string, seq<Route>>, right: map<string, seq<Route>>, found: set<string>)
    returns (changed: set<string>)
    ensures forall p :: p in changed <==>
              p in found || (p in keys && SortRoutes(GroupOf(left, p)) != SortRoutes(GroupOf(right, p)))
  {
    hide SortRoutes, GroupOf;
    changed := found;
    var pending := keys;
    while pending != {}
      invariant pending <= keys
      invariant forall p :: p in changed <==>
                  p in found || (p in keys && p !in pending
                                 && SortRoutes(GroupOf(left, p)) != SortRoutes(GroupOf(right, p)))
      decreases |pending|
    {
      var p :| p in pending;
      var same := SameRoutes(GroupOf(left, p), GroupOf(right, p));
      if !same {
        changed := changed + {p};
      }
      pending := pending - {p};
    }
  }

  lemma GroupedAs(groups: map<string, seq<Route>>, routes: seq<Route>, p: string)
    requires Grouped(groups, routes)
    ensures GroupOf(groups, p) == RoutesTo(routes, p)
  {
  }

  /** The prefixes whose routes change from `a` to `b`. */
  method ChangedPrefixes(a: Plan, b: Plan) returns (changed: seq<string>)
    ensures Lists(changed, a, b)
  {
    hide SortRoutes, GroupOf, Grouped, Less, RoutesTo;
    var left := Group(a.routes);
    var right := Group(b.routes);
    var found := Collect(left.Keys, left, right, {});
    found := Collect(right.Keys, left, right, found);
    LessLinear();
    changed := Sorted(found, Less);
    forall p ensures p in found <==> Differs(a, b, p) {
      GroupedAs(left, a.routes, p);
      GroupedAs(right, b.routes, p);
      Absent(left, right, p);
    }
  }

  lemma Absent(left: map<string, seq<Route>>, right: map<string, seq<Route>>, p: string)
    ensures p !in left && p !in right ==> SortRoutes(GroupOf(left, p)) == SortRoutes(GroupOf(right, p))
  {
  }

  // ---- what the list means -------------------------------------------------------------------

  lemma RoutesConnected(a: Route, b: Route)
    requires RouteKey(a) != RouteKey(b)
    ensures RouteLess(a, b) || RouteLess(b, a)
  {
    hide Less;
    LessConnected(a.device, b.device);
    LessConnected(a.prefix, b.prefix);
    LessConnected(a.nextHopNode, b.nextHopNode);
  }

  /** Lists in order without repeated keys are determined by what is on them. */
  lemma {:induction false} SameListing(s: seq<Route>, t: seq<Route>)
    requires Ascending(s, RouteLess) && Ascending(t, RouteLess) && KeysDistinct(s, RouteKey)
             && KeysDistinct(t, RouteKey)
    requires forall r :: r in s <==> r in t
    ensures s == t
  {
    assert (s != [] ==> s[0] in s) && (t != [] ==> t[0] in t);
    if s != [] && t != [] {
      SameFirst(s, t);
      forall r ensures r in s[1..] <==> r in t[1..] {
        RestOf(s, r);
        RestOf(t, r);
      }
      SameListing(s[1..], t[1..]);
      assert s == [s[0]] + s[1..] && t == [t[0]] + t[1..];
    }
  }

  lemma SameFirst(s: seq<Route>, t: seq<Route>)
    requires s != [] && t != [] && Ascending(s, RouteLess) && Ascending(t, RouteLess) && KeysDistinct(t, RouteKey)
    requires forall r :: r in s <==> r in t
    ensures s[0] == t[0]
  {
    hide RouteLess, RouteKey;
    assert s[0] in t && t[0] in s;
    var j :| 0 <= j < |t| && t[j] == s[0];
    var i :| 0 <= i < |s| && s[i] == t[0];
    assert i > 0 ==> !RouteLess(s[i], s[0]);
    assert j > 0 ==> !RouteLess(t[j], t[0]);
    if RouteKey(t[0]) != RouteKey(t[j]) {
      RoutesConnected(t[0], t[j]);
    }
  }

  lemma RestOf(s: seq<Route>, r: Route)
    requires s != [] && KeysDistinct(s, RouteKey)
    ensures r in s[1..] <==> r in s && r != s[0]
  {
    assert forall k :: 1 <= k < |s| ==> s[1..][k - 1] == s[k] && RouteKey(s[0]) != RouteKey(s[k]);
    if r in s[1..] {
      var k :| 0 <= k < |s[1..]| && s[1..][k] == r;
      assert s[k + 1] == r;
    }
  }

  lemma {:induction false} GroupDistinct(routes: seq<Route>, prefix: string)
    requires KeysDistinct(routes, RouteKey)
    ensures KeysDistinct(RoutesTo(routes, prefix), RouteKey)
  {
    hide RouteKey;
    if routes != [] {
      var front, last := routes[..|routes| - 1], routes[|routes| - 1];
      GroupDistinct(front, prefix);
      var g := RoutesTo(front, prefix);
      forall i | 0 <= i < |g| ensures RouteKey(g[i]) != RouteKey(last) {
        assert g[i] in front;
      }
    }
  }

  lemma SortedGroup(routes: seq<Route>, prefix: string)
    requires KeysDistinct(routes, RouteKey)
    ensures var s := SortRoutes(RoutesTo(routes, prefix));
            && Ascending(s, RouteLess) && KeysDistinct(s, RouteKey)
            && forall r :: r in s <==> r in routes && r.prefix == prefix
  {
    hide RouteLess, RouteKey, RoutesTo;
    var g := RoutesTo(routes, prefix);
    GroupDistinct(routes, prefix);
    RouteOrder();
    SortAscending(g, RouteLess);
    SortKeysDistinct(g, RouteLess, RouteKey);
    forall r ensures r in SortRoutes(g) <==> r in g {
      assert r in SortRoutes(g) <==> r in multiset(SortRoutes(g));
      assert r in g <==> r in multiset(g);
    }
  }

  /** For plans that list no route key twice, a prefix is listed exactly if a route to it comes or goes. */
  lemma ListedIffRouteChanges(a: Plan, b: Plan, prefix: string)
    requires KeysDistinct(a.routes, RouteKey) && KeysDistinct(b.routes, RouteKey)
    ensures Differs(a, b, prefix) <==> exists r: Route :: r.prefix == prefix && (r in a.routes <==> r !in b.routes)
  {
    hide RouteLess, RouteKey, RoutesTo, SortRoutes;
    var s, t := SortRoutes(RoutesTo(a.routes, prefix)), SortRoutes(RoutesTo(b.routes, prefix));
    SortedGroup(a.routes, prefix);
    SortedGroup(b.routes, prefix);
    if forall r: Route :: r.prefix == prefix ==> (r in a.routes <==> r in b.routes) {
      SameListing(s, t);
    } else {
      var r: Route :| r.prefix == prefix && !(r in a.routes <==> r in b.routes);
      assert r in s <==> r !in t;
    }
  }
}
