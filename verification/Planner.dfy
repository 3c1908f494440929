/** Route planning: destinations, disjoint paths, capacity reservation and the routes of a plan. */
module Planner {
  import opened Basics
  import opened Names
  import opened Fabric
  import opened Graph
  import opened Policy
  import opened Disjoint

  /** How long a plan may last. */
  type Lifespan = t: int | t > 0 witness 1

  datatype Config = Config(ttl: Lifespan, maxAge: Time, nodeDisjoint: bool)

  /** The settings of a planner: without a positive lifetime plans last thirty seconds. */
  function New(ttl: int, maxAge: Time, nodeDisjoint: bool): (config: Config) {
    Config(if ttl <= 0 then 30_000_000_000 else ttl, maxAge, nodeDisjoint)
  }

  /** What one intent was given: the topology it was planned on and its paths, the primary first. */
  datatype Planned = Planned(intent: Intent, residual: Snapshot, paths: seq<seq<Edge>>)

  predicate KnownPolicy(name: string) {
    name == "" || name == "latency" || name == "ecmp" || name == "hops" || name == "capacity" || name == "reliability"
  }

  function PolicyName(name: string): string {
    if name == "" then "latency" else name
  }

  function Free(config: Config, now: Time): Options {
    Options(now, config.maxAge, {}, {}, {})
  }

  /** The links that the primary path of an intent may use. */
  ghost function Allowed(residual: Snapshot, intent: Intent, config: Config, now: Time): set<Edge> {
    Edges(residual, intent, PolicyName(intent.policy), Free(config, now))
  }

  ghost predicate Simple(source: string, p: seq<Edge>) {
    forall i, j :: 0 <= i < j <= |p| ==> NodesOf(source, p)[i] != NodesOf(source, p)[j]
  }

  /** A result that the policy engine would return for `intent`. */
  ghost predicate Answer(residual: Snapshot, intent: Intent, config: Config, now: Time, p: seq<Edge>) {
    && intent.Valid() && KnownPolicy(intent.policy)
    && Enabled(residual.nodes, Free(config, now), intent.source)
    && Enabled(residual.nodes, Free(config, now), intent.destination)
    && Reachable(Allowed(residual, intent, config, now), intent, p) && !Exceeds(intent, p)
  }

  method Compute(residual: Snapshot, intent: Intent, config: Config, now: Time)
    returns (r: Result<Path>, ghost p: seq<Edge>)
    requires residual.Valid() && Ranged(residual)
    ensures r.Success? ==> Answer(residual, intent, config, now, p) && r.value == PathOf(intent.source, p)
    ensures r.Failure? ==> forall q :: !Answer(residual, intent, config, now, q)
  {
    hide Snapshot.Valid, Ranged, Edges, Reachable, Exceeds, IsPath, Proper, PathOf, Enabled;
    p := [];
    if !KnownPolicy(intent.policy) {
      return Failure("unknown path policy"), p;
    }
    r, p := Shortest(residual, intent, PolicyName(intent.policy), Free(config, now));
    EdgesProper(residual, intent, PolicyName(intent.policy), Free(config, now));
    if r.Failure? && intent.Valid() && Enabled(residual.nodes, Free(config, now), intent.source)
       && Enabled(residual.nodes, Free(config, now), intent.destination) {
      FailureIsFinal(Allowed(residual, intent, config, now), intent, p);
    }
  }

  function Candidates(intent: Intent): seq<string> {
    SortBy(intent.gateways + if intent.destination != "" then [intent.destination] else [], Less)
  }

  /** The cheapest reachable candidate, the smallest name on ties. */
  method SelectDestination(residual: Snapshot, intent: Intent, config: Config, now: Time)
    returns (r: Result<(Intent, Path)>, ghost p: seq<Edge>)
    requires residual.Valid() && Ranged(residual)
    ensures r.Success? ==>
              && r.value.0 == intent.(destination := r.value.0.destination)
              && r.value.0.destination in Candidates(intent)
              && Answer(residual, r.value.0, config, now, p)
              && r.value.1 == PathOf(intent.source, p)
              && forall d, q ::
                   d in Candidates(intent) && Answer(residual, intent.(destination := d), config, now, q) ==>
                   Cost(p) < Cost(q) || (Cost(p) == Cost(q) && !Less(d, r.value.0.destination))
    ensures r.Failure? ==> forall d, q :: d in Candidates(intent) ==>
                  !Answer(residual, intent.(destination := d), config, now, q)
  {
    hide Snapshot.Valid, Ranged, Answer, PathOf, SortBy;
    var candidates := Candidates(intent);
    p := [];
    r := Failure("no reachable destination");
    for i := 0 to |candidates|
      invariant r.Success? ==>
              && r.value.0 == intent.(destination := r.value.0.destination)
              && r.value.0.destination in candidates
              && Answer(residual, r.value.0, config, now, p)
              && r.value.1 == PathOf(intent.source, p)
              && forall j, q ::
                   0 <= j < i && Answer(residual, intent.(destination := candidates[j]), config, now, q) ==>
                   Cost(p) < Cost(q) || (Cost(p) == Cost(q) && !Less(candidates[j], r.value.0.destination))
      invariant r.Failure? ==>
                  forall j, q :: 0 <= j < i ==> !Answer(residual, intent.(destination := candidates[j]), config, now, q)
    {
      var destination := candidates[i];
      var attempt := intent.(destination := destination);
      var path;
      ghost var found;
      path, found := Compute(residual, attempt, config, now);
      if path.Failure? {
        continue;
      }
      PathCost(attempt.source, found);
      forall q | Answer(residual, attempt, config, now, q) ensures Cost(q) == Cost(found) {
        SameCost(residual, attempt, config, now, found, q);
      }
      LessIrreflexive(destination);
      if r.Failure? {
        r, p := Success((attempt, path.value)), found;
      } else {
        PathCost(intent.source, p);
        if path.value.cost < r.value.1.cost
          || (path.value.cost == r.value.1.cost && Less(destination, r.value.0.destination)) {
          forall j, q | 0 <= j < i && Answer(residual, intent.(destination := candidates[j]), config, now, q)
            ensures Cost(found) < Cost(q) || (Cost(found) == Cost(q) && !Less(candidates[j], destination))
          {
            if Less(candidates[j], destination) && Less(destination, r.value.0.destination) {
              LessTransitive(candidates[j], destination, r.value.0.destination);
            }
          }
          r, p := Success((attempt, path.value)), found;
        }
      }
    }
  }

  lemma SameCost(residual: Snapshot, intent: Intent, config: Config, now: Time, p: seq<Edge>, q: seq<Edge>)
    requires Answer(residual, intent, config, now, p) && Answer(residual, intent, config, now, q)
    ensures Cost(p) == Cost(q)
  {
  }

  // ---- the paths of one intent ---------------------------------------------------------------

  ghost predicate Distinct(source: string, paths: seq<seq<Edge>>, nodeDisjoint: bool) {
    forall i, j :: 0 <= i < j < |paths| ==> Apart(PathOf(source, paths[i]), paths[j], nodeDisjoint)
  }

  /** Everything the plan promises about the paths of one intent. */
  ghost predicate WellPlanned(planned: Planned, config: Config, now: Time) {
    var intent, edges := planned.intent, Allowed(planned.residual, planned.intent, config, now);
    && |planned.paths| == intent.redundancy + 1 && |planned.paths| > 0
    && Answer(planned.residual, intent, config, now, planned.paths[0])
    && (forall j :: 0 <= j < |planned.paths| ==> GoodPath(edges, intent, planned.paths[j]))
    && Distinct(intent.source, planned.paths, config.nodeDisjoint)
  }

  ghost predicate GoodPath(edges: set<Edge>, intent: Intent, p: seq<Edge>) {
    && IsPath(edges, intent.source, intent.destination, p) && Simple(intent.source, p)
    && Cost(p) < MAX && !Exceeds(intent, p)
  }

  ghost function PathsOf(source: string, paths: seq<seq<Edge>>): (r: seq<Path>)
    ensures |r| == |paths| && forall j :: 0 <= j < |paths| ==> r[j] == PathOf(source, paths[j])
  {
    seq(|paths|, j requires 0 <= j < |paths| => PathOf(source, paths[j]))
  }

  lemma CanonicalIsGood(edges: set<Edge>, more: set<Edge>, intent: Intent, p: seq<Edge>)
    requires Proper(edges) && edges <= more && Reachable(edges, intent, p) && !Exceeds(intent, p)
    ensures GoodPath(more, intent, p)
  {
    CanonicalSimple(edges, intent.source, intent.destination, p);
    PathShrink(more, edges, intent.source, intent.destination, p);
  }

  lemma AnswerIsGood(residual: Snapshot, intent: Intent, config: Config, now: Time, p: seq<Edge>)
    requires residual.Valid() && Ranged(residual) && Answer(residual, intent, config, now, p)
    ensures GoodPath(Allowed(residual, intent, config, now), intent, p)
  {
    var edges := Allowed(residual, intent, config, now);
    EdgesProper(residual, intent, PolicyName(intent.policy), Free(config, now));
    CanonicalIsGood(edges, edges, intent, p);
  }

  /** The admissible links that share nothing with the given paths. */
  ghost function Left(residual: Snapshot, intent: Intent, config: Config, now: Time, paths: seq<seq<Edge>>): set<Edge> {
    if paths == [] then Allowed(residual, intent, config, now)
    else OnlyApart(Left(residual, intent, config, now, paths[..|paths| - 1]), PathOf(intent.source, paths[|paths| - 1]),
                   config.nodeDisjoint)
  }

  lemma {:induction false} LeftApart(residual: Snapshot, intent: Intent, config: Config, now: Time,
                                     paths: seq<seq<Edge>>, e: Edge)
    requires e in Left(residual, intent, config, now, paths)
    ensures e in Allowed(residual, intent, config, now)
    ensures forall i :: 0 <= i < |paths| ==> EdgeApart(PathOf(intent.source, paths[i]), e.link, config.nodeDisjoint)
  {
    hide EdgeApart, PathOf;
    if paths != [] {
      LeftApart(residual, intent, config, now, paths[..|paths| - 1], e);
    }
  }

  lemma LeftProper(residual: Snapshot, intent: Intent, config: Config, now: Time, paths: seq<seq<Edge>>)
    requires residual.Valid() && Ranged(residual)
    ensures Proper(Left(residual, intent, config, now, paths))
            && Left(residual, intent, config, now, paths) <= Allowed(residual, intent, config, now)
  {
    hide Snapshot.Valid, Ranged, EdgeApart, Edges;
    EdgesProper(residual, intent, PolicyName(intent.policy), Free(config, now));
    forall e | e in Left(residual, intent, config, now, paths) ensures e in Allowed(residual, intent, config, now) {
      LeftApart(residual, intent, config, now, paths, e);
    }
  }

  /** The canonical path over what is left is good, and apart from every path before it. */
  lemma BackupIsGood(residual: Snapshot, intent: Intent, config: Config, now: Time, paths: seq<seq<Edge>>, q: seq<Edge>)
    requires residual.Valid() && Ranged(residual)
    requires Reachable(Left(residual, intent, config, now, paths), intent, q) && !Exceeds(intent, q)
    requires Distinct(intent.source, paths, config.nodeDisjoint)
    ensures GoodPath(Allowed(residual, intent, config, now), intent, q)
    ensures Distinct(intent.source, paths + [q], config.nodeDisjoint)
  {
    hide Snapshot.Valid, Ranged, Edges, EdgeApart, PathOf, Canonical, IsPath, Proper, Exceeds, GoodPath;
    var edges := Left(residual, intent, config, now, paths);
    LeftProper(residual, intent, config, now, paths);
    CanonicalIsGood(edges, Allowed(residual, intent, config, now), intent, q);
    ReachableIsPath(edges, intent, q);
    forall i | 0 <= i < |paths| ensures Apart(PathOf(intent.source, paths[i]), q, config.nodeDisjoint) {
      forall k | 0 <= k < |q| ensures EdgeApart(PathOf(intent.source, paths[i]), q[k].link, config.nodeDisjoint) {
        PathEdges(edges, intent.source, intent.destination, q, k);
        LeftApart(residual, intent, config, now, paths, q[k]);
      }
    }
  }

  /** The ends of a simple path are not among its interior nodes. */
  lemma EndsStay(edges: set<Edge>, intent: Intent, p: seq<Edge>)
    requires GoodPath(edges, intent, p)
    ensures !Interior(PathOf(intent.source, p).nodes, intent.source)
            && !Interior(PathOf(intent.source, p).nodes, intent.destination)
    ensures |PathOf(intent.source, p).nodes| == |p| + 1
  {
    EndsAt(edges, intent.source, intent.destination, p);
  }

  /** Every path after the first is the canonical one over what the paths before it leave. */
  ghost predicate Successive(planned: Planned, config: Config, now: Time) {
    forall j :: 1 <= j < |planned.paths| ==>
      Reachable(Left(planned.residual, planned.intent, config, now, planned.paths[..j]), planned.intent,
                planned.paths[j])
  }

  /** Why an intent gets no further path: nothing is left that answers it, or a path without links is to be
      avoided node by node. */
  ghost predicate NoBackup(planned: Planned, config: Config, now: Time) {
    && 0 < |planned.paths| <= planned.intent.redundancy && Successive(planned, config, now)
    && (|| (config.nodeDisjoint && planned.paths[|planned.paths| - 1] == [])
        || NoAnswer(Left(planned.residual, planned.intent, config, now, planned.paths), planned.intent))
  }

  /** The exclusions in force after some paths. */
  ghost predicate InForce(options: Options, planned: Planned, config: Config, now: Time) {
    var residual, intent := planned.residual, planned.intent;
    && Edges(residual, intent, PolicyName(intent.policy), options) == Left(residual, intent, config, now, planned.paths)
    && Enabled(residual.nodes, options, intent.source) && Enabled(residual.nodes, options, intent.destination)
  }

  lemma NothingInForce(residual: Snapshot, intent: Intent, config: Config, now: Time, p: seq<Edge>)
    requires Answer(residual, intent, config, now, p)
    ensures InForce(Free(config, now), Planned(intent, residual, []), config, now)
  {
  }

  lemma MoreInForce(options: Options, residual: Snapshot, intent: Intent, config: Config, now: Time,
                    paths: seq<seq<Edge>>, p: seq<Edge>)
    requires residual.Valid() && InForce(options, Planned(intent, residual, paths), config, now)
    requires GoodPath(Allowed(residual, intent, config, now), intent, p)
    ensures InForce(Excluding(options, residual, PathOf(intent.source, p), config.nodeDisjoint),
                    Planned(intent, residual, paths + [p]), config, now)
  {
    hide Snapshot.Valid, Edges, Allowed, GoodPath, Excluding, PathOf, Interior, EdgeApart;
    assert (paths + [p])[..|paths|] == paths;
    EdgesExclude(residual, intent, PolicyName(intent.policy), options, PathOf(intent.source, p), config.nodeDisjoint);
    EndsStay(Allowed(residual, intent, config, now), intent, p);
    EnabledExcept(residual.nodes, options, residual, PathOf(intent.source, p), config.nodeDisjoint, intent.source);
    EnabledExcept(residual.nodes, options, residual, PathOf(intent.source, p), config.nodeDisjoint, intent.destination);
  }

  lemma SuccessiveGrows(residual: Snapshot, intent: Intent, config: Config, now: Time, paths: seq<seq<Edge>>,
                        q: seq<Edge>)
    requires Successive(Planned(intent, residual, paths), config, now)
    requires Reachable(Left(residual, intent, config, now, paths), intent, q)
    ensures Successive(Planned(intent, residual, paths + [q]), config, now)
  {
    hide Left, Reachable;
    var more := paths + [q];
    forall j | 1 <= j < |more| ensures Reachable(Left(residual, intent, config, now, more[..j]), intent, more[j]) {
      if j < |paths| {
        assert more[..j] == paths[..j];
      } else {
        assert more[..j] == paths;
      }
    }
  }

  /** What is known after some paths have been found. */
  ghost predicate Collecting(planned: Planned, config: Config, now: Time) {
    && planned.paths != [] && Successive(planned, config, now)
    && (forall j :: 0 <= j < |planned.paths| ==>
            GoodPath(Allowed(planned.residual, planned.intent, config, now), planned.intent, planned.paths[j]))
    && Distinct(planned.intent.source, planned.paths, config.nodeDisjoint)
  }

  lemma CollectingStarts(residual: Snapshot, intent: Intent, config: Config, now: Time, first: seq<Edge>)
    requires residual.Valid() && Ranged(residual) && Answer(residual, intent, config, now, first)
    ensures Collecting(Planned(intent, residual, [first]), config, now)
  {
    hide Snapshot.Valid, Ranged, Answer, GoodPath;
    AnswerIsGood(residual, intent, config, now, first);
  }

  lemma CollectingGrows(residual: Snapshot, intent: Intent, config: Config, now: Time, paths: seq<seq<Edge>>,
                        q: seq<Edge>)
    requires residual.Valid() && Ranged(residual) && Collecting(Planned(intent, residual, paths), config, now)
    requires Reachable(Left(residual, intent, config, now, paths), intent, q) && !Exceeds(intent, q)
    ensures Collecting(Planned(intent, residual, paths + [q]), config, now)
  {
    hide Snapshot.Valid, Ranged, GoodPath, Successive, Left, Reachable, Exceeds, Distinct;
    BackupIsGood(residual, intent, config, now, paths, q);
    SuccessiveGrows(residual, intent, config, now, paths, q);
  }

  /** One more backup after the paths in `all`, apart from all of them. */
  method NextBackup(residual: Snapshot, intent: Intent, previous: Path, exclusions: Exclusions, config: Config,
                    now: Time, ghost all: seq<seq<Edge>>)
    returns (r: Result<Path>, ghost q: seq<Edge>)
    requires residual.Valid() && Ranged(residual) && intent.Valid() && 0 < |all| <= intent.redundancy
    requires Collecting(Planned(intent, residual, all), config, now)
    requires previous == PathOf(intent.source, all[|all| - 1])
    requires InForce(exclusions.At(now, config.maxAge), Planned(intent, residual, all[..|all| - 1]), config, now)
    modifies exclusions
    ensures InForce(exclusions.At(now, config.maxAge), Planned(intent, residual, all), config, now)
    ensures r.Success? ==>
              Collecting(Planned(intent, residual, all + [q]), config, now) && r.value == PathOf(intent.source, q)
    ensures r.Failure? ==> NoBackup(Planned(intent, residual, all), config, now)
  {
    hide Snapshot.Valid, Intent.Valid, Ranged, Answer, Edges, Reachable, Exceeds, GoodPath, InForce, Collecting,
         Excluding, Left, NoAnswer, Enabled, Successive, NoBackup, PathOf, Distinct, Allowed, RawEdges, PolicyName;
    var last := |all| - 1;
    CollectingFacts(Planned(intent, residual, all), config, now);
    MoreInForce(exclusions.At(now, config.maxAge), residual, intent, config, now, all[..last], all[last]);
    assert all[..last] + [all[last]] == all;
    r, q := WithPolicy(residual, intent, PolicyName(intent.policy), previous, config.nodeDisjoint, exclusions, now,
                       config.maxAge);
    InForceFacts(exclusions.At(now, config.maxAge), Planned(intent, residual, all), config, now);
    if r.Failure? {
      BackupMissing(Planned(intent, residual, all), config, now);
    } else {
      CollectingGrows(residual, intent, config, now, all, q);
    }
  }

  /** The backups of one intent: each search excludes the path before it, and the exclusions of all
      earlier ones are still in force. Every path is the canonical one over what is left, and the search
      fails only if nothing is left. */
  method Backups(residual: Snapshot, intent: Intent, primary: Path, ghost first: seq<Edge>, config: Config, now: Time)
    returns (r: Result<seq<Path>>, ghost all: seq<seq<Edge>>)
    requires residual.Valid() && Ranged(residual)
    requires Answer(residual, intent, config, now, first) && primary == PathOf(intent.source, first)
    ensures |all| > 0 && all[0] == first
    ensures r.Success? ==> |r.value| == intent.redundancy + 1 && r.value[0] == primary
    ensures r.Success? ==>
              && r.value == PathsOf(intent.source, all)
              && WellPlanned(Planned(intent, residual, all), config, now)
              && Successive(Planned(intent, residual, all), config, now)
    ensures r.Failure? ==> NoBackup(Planned(intent, residual, all), config, now)
  {
    hide Snapshot.Valid, Intent.Valid, Ranged, Answer, InForce, Collecting, Successive, WellPlanned, NoBackup, PathOf,
         PathsOf;
    CollectingStarts(residual, intent, config, now, first);
    AnswerIsValid(residual, intent, config, now, first);
    all := [first];
    var paths := [primary];
    var exclusions := new Exclusions();
    NothingInForce(residual, intent, config, now, first);
    var previous := primary;
    for index := 0 to intent.redundancy
      invariant |all| == |paths| == index + 1 && all[0] == first && paths[0] == primary
      invariant paths == PathsOf(intent.source, all) && previous == paths[index]
      invariant fresh(exclusions)
      invariant InForce(exclusions.At(now, config.maxAge), Planned(intent, residual, all[..index]), config, now)
      invariant Collecting(Planned(intent, residual, all), config, now)
    {
      var backup;
      ghost var q;
      backup, q := NextBackup(residual, intent, previous, exclusions, config, now, all);
      if backup.Failure? {
        return Failure(backup.error), all;
      }
      assert (all + [q])[..index + 1] == all;
      all := all + [q];
      paths := paths + [backup.value];
      previous := backup.value;
    }
    AllCollected(residual, intent, config, now, all);
    r := Success(paths);
  }

  lemma BackupMissing(planned: Planned, config: Config, now: Time)
    requires Collecting(planned, config, now) && 0 < |planned.paths| <= planned.intent.redundancy
    requires || (config.nodeDisjoint && planned.paths[|planned.paths| - 1] == [])
             || NoAnswer(Left(planned.residual, planned.intent, config, now, planned.paths), planned.intent)
    ensures NoBackup(planned, config, now)
  {
    hide NoAnswer, Left, Successive, GoodPath, Distinct;
  }

  lemma AllCollected(residual: Snapshot, intent: Intent, config: Config, now: Time, all: seq<seq<Edge>>)
    requires Collecting(Planned(intent, residual, all), config, now) && |all| == intent.redundancy + 1 && |all| > 0
    requires Answer(residual, intent, config, now, all[0])
    ensures WellPlanned(Planned(intent, residual, all), config, now)
            && Successive(Planned(intent, residual, all), config, now)
  {
    hide Answer, Successive, GoodPath, Distinct;
  }

  lemma InForceFacts(options: Options, planned: Planned, config: Config, now: Time)
    requires InForce(options, planned, config, now)
    ensures Edges(planned.residual, planned.intent, PolicyName(planned.intent.policy), options) ==
            Left(planned.residual, planned.intent, config, now, planned.paths)
    ensures Enabled(planned.residual.nodes, options, planned.intent.source)
    ensures Enabled(planned.residual.nodes, options, planned.intent.destination)
  {
  }

  lemma CollectingFacts(planned: Planned, config: Config, now: Time)
    requires Collecting(planned, config, now)
    ensures planned.paths != [] && Successive(planned, config, now)
    ensures forall j :: 0 <= j < |planned.paths| ==>
                GoodPath(Allowed(planned.residual, planned.intent, config, now), planned.intent, planned.paths[j])
    ensures Distinct(planned.intent.source, planned.paths, config.nodeDisjoint)
    ensures |PathOf(planned.intent.source, planned.paths[|planned.paths| - 1]).nodes|
              == |planned.paths[|planned.paths| - 1]| + 1
  {
  }

  lemma AnswerIsValid(residual: Snapshot, intent: Intent, config: Config, now: Time, p: seq<Edge>)
    requires Answer(residual, intent, config, now, p)
    ensures intent.Valid() && KnownPolicy(intent.policy)
  {
  }

  // ---- capacity ------------------------------------------------------------------------------

  /** The same topology with less capacity on some links, never below zero. */
  ghost predicate ResidualOf(snapshot: Snapshot, residual: Snapshot) {
    && residual == snapshot.(links := residual.links) && |residual.links| == |snapshot.links|
    && forall i :: 0 <= i < |snapshot.links| ==>
         && residual.links[i] == snapshot.links[i].(capacity := residual.links[i].capacity)
         && (residual.links[i].capacity == snapshot.links[i].capacity
             || 0 <= residual.links[i].capacity <= snapshot.links[i].capacity)
  }

  lemma ResidualValid(snapshot: Snapshot, residual: Snapshot)
    requires snapshot.Valid() && Ranged(snapshot) && ResidualOf(snapshot, residual)
    ensures residual.Valid() && Ranged(residual)
  {
    forall id ensures residual.HasNode(id) == snapshot.HasNode(id) {
    }
    forall i | 0 <= i < |residual.links| ensures residual.ValidLink(residual.links[i]) {
      assert snapshot.ValidLink(snapshot.links[i]);
    }
  }

  function ReservedOn(reservations: map<string, int>, id: string): int {
    if id in reservations then reservations[id] else 0
  }

  /** The demand of all primary paths that cross link `id`. */
  ghost function Load(planned: seq<Planned>, id: string): int {
    if planned == [] then 0 else
      var last := planned[|planned| - 1];
      Load(planned[..|planned| - 1], id) +
      if |last.paths| > 0 && id in LinkIds(last.paths[0]) then last.intent.demand else 0
  }

  ghost predicate HasLink(links: seq<Link>, id: string) {
    exists i :: 0 <= i < |links| && links[i].id == id
  }

  ghost predicate Reduced(before: seq<Link>, after: seq<Link>, ids: seq<string>, demand: int) {
    && |after| == |before|
    && forall i :: 0 <= i < |before| ==>
         after[i] == before[i].(capacity := before[i].capacity - if before[i].id in ids then demand else 0)
  }

  /** Subtract a demand from the links of a path and record it. */
  method Reserve(before: seq<Link>, ids: seq<string>, demand: int, booked: map<string, int>)
    returns (links: seq<Link>, reservations: map<string, int>)
    requires forall i, j :: 0 <= i < j < |before| ==> before[i].id != before[j].id
    requires forall i, j :: 0 <= i < j < |ids| ==> ids[i] != ids[j]
    requires forall k :: 0 <= k < |ids| ==> HasLink(before, ids[k])
    ensures Reduced(before, links, ids, demand)
    ensures forall id :: ReservedOn(reservations, id) == ReservedOn(booked, id) + if id in ids then demand else 0
  {
    hide HasLink;
    links, reservations := before, booked;
    ReducedNone(before, demand);
    for k := 0 to |ids|
      invariant Reduced(before, links, ids[..k], demand)
      invariant forall id :: ReservedOn(reservations, id) == ReservedOn(booked, id) + if id in ids[..k] then demand
                    else 0
    {
      assert ids[..k + 1] == ids[..k] + [ids[k]];
      var i := FindLink(before, links, ids[..k], demand, ids[k]);
      ReducedOne(before, links, ids[..k], demand, ids[k], i);
      links := links[i := links[i].(capacity := links[i].capacity - demand)];
      reservations := reservations[ids[k] := ReservedOn(reservations, ids[k]) + demand];
    }
    assert ids[..|ids|] == ids;
  }

  lemma ReducedNone(before: seq<Link>, demand: int)
    ensures Reduced(before, before, [], demand)
  {
  }

  lemma ReducedOne(before: seq<Link>, links: seq<Link>, ids: seq<string>, demand: int, id: string, i: nat)
    requires Reduced(before, links, ids, demand) && i < |links| && links[i].id == id && id !in ids
    requires forall i, j :: 0 <= i < j < |before| ==> before[i].id != before[j].id
    ensures Reduced(before, links[i := links[i].(capacity := links[i].capacity - demand)], ids + [id], demand)
  {
    assert forall x :: x in ids + [id] <==> x in ids || x == id;
  }

  method FindLink(ghost before: seq<Link>, links: seq<Link>, ghost ids: seq<string>, ghost demand: int, id: string)
    returns (i: nat)
    requires Reduced(before, links, ids, demand) && HasLink(before, id)
    ensures i < |links| && links[i].id == id
  {
    i := 0;
    assert HasLink(links, id) by {
      var j :| 0 <= j < |before| && before[j].id == id;
      assert links[j].id == id;
    }
    while links[i].id != id
      invariant 0 <= i < |links|
      invariant forall j :: 0 <= j < i ==> links[j].id != id
      decreases |links| - i
    {
      i := i + 1;
    }
  }

  /** A good path crosses each link once, and every link it crosses has room for the demand. */
  lemma PathRoom(residual: Snapshot, intent: Intent, config: Config, now: Time, p: seq<Edge>)
    requires residual.Valid() && GoodPath(Allowed(residual, intent, config, now), intent, p)
    ensures forall i, j :: 0 <= i < j < |p| ==> LinkIds(p)[i] != LinkIds(p)[j]
    ensures forall k :: 0 <= k < |p| ==> HasLink(residual.links, LinkIds(p)[k])
    ensures forall i :: 0 <= i < |residual.links| && residual.links[i].id in LinkIds(p) && intent.demand > 0 ==>
              residual.links[i].capacity >= intent.demand
  {
    hide Snapshot.Valid, IsPath, Allowed, Exceeds, Cost;
    var edges := Allowed(residual, intent, config, now);
    forall k | 0 <= k < |p|
      ensures HasLink(residual.links, p[k].link.id)
      ensures forall i :: 0 <= i < |residual.links| && residual.links[i].id == p[k].link.id && intent.demand > 0 ==>
                residual.links[i].capacity >= intent.demand
    {
      PathEdges(edges, intent.source, intent.destination, p, k);
      EdgeRoom(residual, intent, config, now, p[k]);
    }
    forall i, j | 0 <= i < j < |p| ensures p[i].link.id != p[j].link.id {
      PathEdges(edges, intent.source, intent.destination, p, i);
      PathEdges(edges, intent.source, intent.destination, p, j);
      SameId(residual, intent, config, now, p[i], p[j]);
      assert NodesOf(intent.source, p)[i + 1] != NodesOf(intent.source, p)[j + 1];
    }
  }

  lemma EdgeRoom(residual: Snapshot, intent: Intent, config: Config, now: Time, e: Edge)
    requires residual.Valid() && e in Allowed(residual, intent, config, now)
    ensures HasLink(residual.links, e.link.id)
    ensures forall i :: 0 <= i < |residual.links| && residual.links[i].id == e.link.id && intent.demand > 0 ==>
              residual.links[i].capacity >= intent.demand
  {
  }

  lemma SameId(residual: Snapshot, intent: Intent, config: Config, now: Time, e: Edge, f: Edge)
    requires residual.Valid() && e in Allowed(residual, intent, config, now)
             && f in Allowed(residual, intent, config, now)
    ensures e.link.id == f.link.id ==> e == f
  {
  }

  /** What the primaries planned so far leave: the snapshot with exactly their demands taken off its links. */
  ghost predicate Remaining(snapshot: Snapshot, planned: seq<Planned>, residual: Snapshot) {
    && |residual.links| == |snapshot.links| && residual == snapshot.(links := residual.links)
    && forall i :: 0 <= i < |snapshot.links| ==>
         var link := snapshot.links[i];
         residual.links[i] == link.(capacity := link.capacity - Load(planned, link.id))
  }

  /** What has been reserved so far adds up on every link. */
  ghost predicate Conserved(snapshot: Snapshot, residual: Snapshot, reservations: map<string, int>,
                            planned: seq<Planned>)
  {
    && ResidualOf(snapshot, residual)
    && (forall i :: 0 <= i < |snapshot.links| ==>
          residual.links[i].capacity + ReservedOn(reservations, snapshot.links[i].id) == snapshot.links[i].capacity)
    && (forall id :: ReservedOn(reservations, id) == Load(planned, id))
  }

  lemma ReserveConserves(snapshot: Snapshot, residual: Snapshot, reservations: map<string, int>, planned: seq<Planned>,
                         next: Planned, config: Config, now: Time, links: seq<Link>, booked: map<string, int>)
    requires snapshot.Valid() && Ranged(snapshot) && Conserved(snapshot, residual, reservations, planned)
    requires next.residual == residual && WellPlanned(next, config, now) && next.intent.demand > 0
    requires Reduced(residual.links, links, LinkIds(next.paths[0]), next.intent.demand)
    requires forall id :: ReservedOn(booked, id) ==
                          ReservedOn(reservations, id) + if id in LinkIds(next.paths[0]) then next.intent.demand else 0
    ensures Conserved(snapshot, residual.(links := links), booked, planned + [next])
  {
    hide Snapshot.Valid, Ranged, GoodPath, Distinct, Answer, Allowed;
    ResidualValid(snapshot, residual);
    PathRoom(residual, next.intent, config, now, next.paths[0]);
    assert (planned + [next])[..|planned|] == planned;
  }

  lemma NothingToReserve(snapshot: Snapshot, residual: Snapshot, reservations: map<string, int>, planned: seq<Planned>,
                         next: Planned)
    requires Conserved(snapshot, residual, reservations, planned) && next.intent.demand == 0
    ensures Conserved(snapshot, residual, reservations, planned + [next])
  {
    assert (planned + [next])[..|planned|] == planned;
  }

  /** Capacity is conserved: on every link the primaries that cross it demand no more than it has. */
  lemma LoadWithinCapacity(snapshot: Snapshot, residual: Snapshot, reservations: map<string, int>,
                           planned: seq<Planned>, i: nat)
    requires Conserved(snapshot, residual, reservations, planned) && i < |snapshot.links|
    ensures Load(planned, snapshot.links[i].id) == snapshot.links[i].capacity - residual.links[i].capacity
    ensures Load(planned, snapshot.links[i].id) != 0 ==>
              Load(planned, snapshot.links[i].id) <= snapshot.links[i].capacity
  {
  }

  // ---- routes --------------------------------------------------------------------------------

  /** The address a device uses for a neighbour, if one is bound. */
  type Addressing = (string, string) -> Option<string>

  function Address(address: Addressing, a: string, b: string): string {
    if address(a, b).Some? then address(a, b).value else ""
  }

  function Metric(intent: Intent, paths: seq<Path>, j: nat): int
    requires j < |paths|
  {
    if j == 0 || (intent.policy == "ecmp" && paths[j].cost == paths[0].cost) then 100 else 200 + j
  }

  function Role(intent: Intent, paths: seq<Path>, j: nat): string
    requires j < |paths|
  {
    if j == 0 then "primary" else if Metric(intent, paths, j) == 100 then "ecmp" else "backup"
  }

  function HopRoute(address: Addressing, intent: Intent, paths: seq<Path>, j: nat, i: nat): Route
    requires j < |paths| && i + 1 < |paths[j].nodes|
  {
    var a, b := paths[j].nodes[i], paths[j].nodes[i + 1];
    Route(a, intent.prefix, Address(address, a, b), b, Metric(intent, paths, j), intent.id, Role(intent, paths, j))
  }

  function PathRoutes(address: Addressing, intent: Intent, paths: seq<Path>, j: nat, n: nat): (r: seq<Route>)
    requires j < |paths| && n < |paths[j].nodes|
    ensures |r| == n && forall i :: 0 <= i < n ==> r[i] == HopRoute(address, intent, paths, j, i)
  {
    if n == 0 then [] else PathRoutes(address, intent, paths, j, n - 1) + [HopRoute(address, intent, paths, j, n - 1)]
  }

  predicate NonEmpty(paths: seq<Path>) {
    forall j :: 0 <= j < |paths| ==> |paths[j].nodes| > 0
  }

  function AllRoutes(address: Addressing, intent: Intent, paths: seq<Path>, m: nat): seq<Route>
    requires m <= |paths| && NonEmpty(paths)
  {
    if m == 0 then [] else
      AllRoutes(address, intent, paths, m - 1) + PathRoutes(address, intent, paths, m - 1, |paths[m - 1].nodes| - 1)
  }

  ghost predicate Addressed(address: Addressing, paths: seq<Path>, m: nat)
    requires m <= |paths|
  {
    forall j, i :: 0 <= j < m && 0 <= i < |paths[j].nodes| - 1 ==>
          address(paths[j].nodes[i], paths[j].nodes[i + 1]).Some?
  }

  method EmitPath(address: Addressing, intent: Intent, paths: seq<Path>, j: nat) returns (r: Result<seq<Route>>)
    requires j < |paths| && |paths[j].nodes| > 0
    ensures r.Success? ==> r.value == PathRoutes(address, intent, paths, j, |paths[j].nodes| - 1)
    ensures r.Success? <==> forall i :: 0 <= i < |paths[j].nodes| - 1 ==>
                  address(paths[j].nodes[i], paths[j].nodes[i + 1]).Some?
  {
    var role, metric := "primary", 100;
    if j > 0 {
      role, metric := "backup", 200 + j;
      if intent.policy == "ecmp" && paths[j].cost == paths[0].cost {
        role, metric := "ecmp", 100;
      }
    }
    assert metric == Metric(intent, paths, j) && role == Role(intent, paths, j);
    var nodes := paths[j].nodes;
    var routes, i := [], 0;
    while i + 1 < |nodes|
      invariant 0 <= i < |nodes|
      invariant routes == PathRoutes(address, intent, paths, j, i)
      invariant forall k :: 0 <= k < i ==> address(nodes[k], nodes[k + 1]).Some?
    {
      var hop := address(nodes[i], nodes[i + 1]);
      if hop.None? {
        return Failure("invalid next-hop address");
      }
      routes := routes + [Route(nodes[i], intent.prefix, hop.value, nodes[i + 1], metric, intent.id, role)];
      i := i + 1;
    }
    r := Success(routes);
  }

  /** One route per hop of every path; the primary and its equal-cost companions get the best metric. */
  method EmitRoutes(address: Addressing, intent: Intent, paths: seq<Path>) returns (r: Result<seq<Route>>)
    requires NonEmpty(paths)
    ensures r.Success? <==> Addressed(address, paths, |paths|)
    ensures r.Success? ==> r.value == AllRoutes(address, intent, paths, |paths|)
  {
    hide PathRoutes;
    var routes := [];
    for j := 0 to |paths|
      invariant routes == AllRoutes(address, intent, paths, j) && Addressed(address, paths, j)
    {
      var emitted := EmitPath(address, intent, paths, j);
      if emitted.Failure? {
        return Failure(emitted.error);
      }
      routes := routes + emitted.value;
    }
    r := Success(routes);
  }

  ghost function RoutesFor(address: Addressing, planned: Planned): seq<Route> {
    AllRoutes(address, planned.intent, PathsOf(planned.intent.source, planned.paths), |planned.paths|)
  }

  ghost function Emitted(address: Addressing, planned: seq<Planned>): seq<Route> {
    if planned == [] then [] else
      Emitted(address, planned[..|planned| - 1]) + RoutesFor(address, planned[|planned| - 1])
  }

  // ---- the plan ------------------------------------------------------------------------------

  predicate IntentLess(a: Intent, b: Intent) {
    if a.priority != b.priority then a.priority > b.priority else Less(a.id, b.id)
  }

  /** No link of these paths ends before `expires`. */
  ghost predicate Outlives(paths: seq<seq<Edge>>, expires: Time) {
    forall j, k :: 0 <= j < |paths| && 0 <= k < |paths[j]| ==> EndsAfter(paths[j][k].link, expires)
  }

  /** No link of these paths has ended by now. */
  ghost predicate Lasting(paths: seq<seq<Edge>>, now: Time) {
    forall j, k :: 0 <= j < |paths| && 0 <= k < |paths[j]| ==> EndsAfter(paths[j][k].link, now + 1)
  }

  /** Links in use are usable now, so they have not ended. */
  lemma PathsLast(planned: Planned, config: Config, now: Time)
    requires WellPlanned(planned, config, now)
    ensures Lasting(planned.paths, now)
  {
    hide Answer, Distinct, Exceeds, Cost, Simple, IsPath, Allowed;
    var edges := Allowed(planned.residual, planned.intent, config, now);
    forall j, k | 0 <= j < |planned.paths| && 0 <= k < |planned.paths[j]|
      ensures EndsAfter(planned.paths[j][k].link, now + 1)
    {
      PathEdges(edges, planned.intent.source, planned.intent.destination, planned.paths[j], k);
      AllowedUsable(planned, config, now, planned.paths[j][k]);
    }
  }

  lemma AllowedUsable(planned: Planned, config: Config, now: Time, e: Edge)
    requires e in Allowed(planned.residual, planned.intent, config, now)
    ensures e.link.Usable(now, config.maxAge)
  {
  }

  predicate EndsAfter(link: Link, expires: Time) {
    && (link.validUntil != 0 ==> expires <= link.validUntil)
    && (link.availabilityEnd != 0 ==> expires <= link.availabilityEnd)
  }

  ghost predicate PlannedWell(snapshot: Snapshot, planned: Planned, config: Config, now: Time, address: Addressing,
                              parses: string -> bool)
  {
    && WellPlanned(planned, config, now) && Successive(planned, config, now)
    && ResidualOf(snapshot, planned.residual) && parses(planned.intent.prefix)
    && Addressed(address, PathsOf(planned.intent.source, planned.paths), |planned.paths|)
  }

  /** No candidate destination is cheaper, and of the cheapest ones it has the smallest name. */
  ghost predicate Nearest(planned: Planned, intent: Intent, config: Config, now: Time) {
    && planned.paths != [] && planned.intent.destination in Candidates(intent)
    && forall d, q :: d in Candidates(intent) && Answer(planned.residual, intent.(destination := d), config, now, q) ==>
         || Cost(planned.paths[0]) < Cost(q)
         || (Cost(planned.paths[0]) == Cost(q) && !Less(d, planned.intent.destination))
  }

  /** Why an intent cannot be planned on what is left: it is malformed, no candidate destination has a path,
      a backup is missing, or a neighbour on its paths has no address. */
  ghost predicate Stuck(residual: Snapshot, intent: Intent, next: Planned, config: Config, now: Time,
                        address: Addressing, parses: string -> bool)
  {
    || !intent.Valid() || !parses(intent.prefix)
    || (forall d, q :: d in Candidates(intent) ==> !Answer(residual, intent.(destination := d), config, now, q))
    || (&& next.residual == residual && next.intent == intent.(destination := next.intent.destination)
        && Nearest(next, intent, config, now)
        && (|| NoBackup(next, config, now)
            || (&& WellPlanned(next, config, now) && Successive(next, config, now)
                && !Addressed(address, PathsOf(intent.source, next.paths), |next.paths|))))
  }

  /** What a plan says about the intents behind it. */
  ghost predicate Describes(snapshot: Snapshot, plan: Plan, planned: seq<Planned>, address: Addressing) {
    && plan.id != "" && plan.version == snapshot.version
    && plan.intents == IntentsOf(planned)
    && plan.routes == SortRoutes(Emitted(address, planned))
    && Recorded(plan.paths, planned)
  }

  ghost function IntentsOf(planned: seq<Planned>): (r: seq<Intent>)
    ensures |r| == |planned| && forall k :: 0 <= k < |planned| ==> r[k] == planned[k].intent
  {
    seq(|planned|, k requires 0 <= k < |planned| => planned[k].intent)
  }

  method Lifetime(paths: seq<Path>, ghost all: seq<seq<Edge>>, ghost source: string, links: map<string, Link>,
                  limit: Time, ghost now: Time)
    returns (expires: Time)
    requires paths == PathsOf(source, all)
    requires forall j, k :: 0 <= j < |all| && 0 <= k < |all[j]| ==>
               all[j][k].link.id in links
                 && links[all[j][k].link.id] == all[j][k].link.(capacity := links[all[j][k].link.id].capacity)
    ensures expires <= limit && Outlives(all, expires)
    ensures now < limit && Lasting(all, now) ==> now < expires
  {
    hide Latency, Loss, Capacity, Cost, RiskGroups, NodesOf;
    expires := limit;
    for j := 0 to |paths|
      invariant expires <= limit && Outlives(all[..j], expires)
      invariant now < limit && Lasting(all, now) ==> now < expires
    {
      for k := 0 to |paths[j].links|
        invariant expires <= limit && Outlives(all[..j], expires)
        invariant now < limit && Lasting(all, now) ==> now < expires
        invariant forall i :: 0 <= i < k ==> EndsAfter(all[j][i].link, expires)
      {
        var link := links[paths[j].links[k]];
        if link.validUntil != 0 && link.validUntil < expires {
          expires := link.validUntil;
        }
        if link.availabilityEnd != 0 && link.availabilityEnd < expires {
          expires := link.availabilityEnd;
        }
      }
    }
  }

  lemma PathsNonEmpty(source: string, all: seq<seq<Edge>>)
    ensures NonEmpty(PathsOf(source, all))
  {
  }

  /** Plan one intent on what is left of the topology. */
  method PlanOne(snapshot: Snapshot, residual: Snapshot, intent: Intent, config: Config, now: Time,
                 address: Addressing, parses: string -> bool)
    returns (r: Result<(Intent, seq<Path>, seq<Route>)>, ghost planned: Planned)
    requires snapshot.Valid() && Ranged(snapshot) && ResidualOf(snapshot, residual)
    ensures r.Success? ==>
              r.value.0 == intent.(destination := r.value.0.destination) && |r.value.1| == intent.redundancy + 1
    ensures r.Success? ==>
              && PlannedWell(snapshot, planned, config, now, address, parses) && Nearest(planned, intent, config, now)
              && planned.residual == residual && planned.intent == intent.(destination := planned.intent.destination)
              && r.value == (planned.intent, PathsOf(intent.source, planned.paths), RoutesFor(address, planned))
    ensures r.Failure? ==> Stuck(residual, intent, planned, config, now, address, parses)
  {
    hide Snapshot.Valid, Ranged, ResidualOf, Answer, WellPlanned, Addressed, SortBy, PathOf, AllRoutes, NoBackup,
         Successive;
    planned := Planned(intent, residual, []);
    if !intent.Valid() || !parses(intent.prefix) {
      return Failure("invalid intent"), planned;
    }
    ResidualValid(snapshot, residual);
    var selected;
    ghost var p;
    selected, p := SelectDestination(residual, intent, config, now);
    if selected.Failure? {
      return Failure(selected.error), planned;
    }
    var chosen, primary := selected.value.0, selected.value.1;
    var paths;
    ghost var all;
    paths, all := Backups(residual, chosen, primary, p, config, now);
    planned := Planned(chosen, residual, all);
    assert Nearest(planned, intent, config, now);
    if paths.Failure? {
      return Failure(paths.error), planned;
    }
    PathsNonEmpty(chosen.source, all);
    var routes := EmitRoutes(address, chosen, paths.value);
    if routes.Failure? {
      return Failure(routes.error), planned;
    }
    r := Success((chosen, paths.value, routes.value));
  }

  method IndexLinks(links: seq<Link>) returns (index: map<string, Link>)
    requires forall i, j :: 0 <= i < j < |links| ==> links[i].id != links[j].id
    ensures forall i :: 0 <= i < |links| ==> links[i].id in index && index[links[i].id] == links[i]
  {
    index := map[];
    for i := 0 to |links|
      invariant forall j :: 0 <= j < i ==> links[j].id in index && index[links[j].id] == links[j]
    {
      index := index[links[i].id := links[i]];
    }
  }

  lemma LinksKnown(snapshot: Snapshot, planned: Planned, config: Config, now: Time, index: map<string, Link>)
    requires snapshot.Valid() && ResidualOf(snapshot, planned.residual) && WellPlanned(planned, config, now)
    requires forall i :: 0 <= i < |snapshot.links| ==>
                 snapshot.links[i].id in index && index[snapshot.links[i].id] == snapshot.links[i]
    ensures forall j, k :: 0 <= j < |planned.paths| && 0 <= k < |planned.paths[j]| ==>
              var link := planned.paths[j][k].link;
              link.id in index && index[link.id] == link.(capacity := index[link.id].capacity)
  {
    hide Snapshot.Valid, Answer, Distinct, Exceeds, Cost, IsPath, Simple, Allowed;
    forall j, k | 0 <= j < |planned.paths| && 0 <= k < |planned.paths[j]|
      ensures var link := planned.paths[j][k].link;
              link.id in index && index[link.id] == link.(capacity := index[link.id].capacity)
    {
      var intent := planned.intent;
      var edges := Allowed(planned.residual, intent, config, now);
      PathEdges(edges, intent.source, intent.destination, planned.paths[j], k);
      EdgeIndex(planned.residual, intent, config, now, planned.paths[j][k]);
    }
  }

  lemma EdgeIndex(residual: Snapshot, intent: Intent, config: Config, now: Time, e: Edge)
    requires e in Allowed(residual, intent, config, now)
    ensures exists i :: 0 <= i < |residual.links| && residual.links[i] == e.link
    ensures Admissible(residual.nodes, intent, Free(config, now), e.link)
  {
  }

  lemma StartConserved(snapshot: Snapshot)
    ensures Conserved(snapshot, snapshot, map[], [])
  {
  }

  lemma ReservePre(snapshot: Snapshot, planned: Planned, config: Config, now: Time)
    requires snapshot.Valid() && Ranged(snapshot) && ResidualOf(snapshot, planned.residual)
             && WellPlanned(planned, config, now)
    ensures var ids, links := LinkIds(planned.paths[0]), planned.residual.links;
            && (forall i, j :: 0 <= i < j < |links| ==> links[i].id != links[j].id)
            && (forall i, j :: 0 <= i < j < |ids| ==> ids[i] != ids[j])
            && (forall k :: 0 <= k < |ids| ==> HasLink(links, ids[k]))
  {
    hide Ranged, Answer, Distinct, GoodPath, Allowed;
    ResidualValid(snapshot, planned.residual);
    PathRoom(planned.residual, planned.intent, config, now, planned.paths[0]);
  }

  lemma EmittedGrows(address: Addressing, planned: seq<Planned>, next: Planned)
    ensures Emitted(address, planned + [next]) == Emitted(address, planned) + RoutesFor(address, next)
    ensures IntentsOf(planned + [next]) == IntentsOf(planned) + [next.intent]
  {
    assert (planned + [next])[..|planned|] == planned;
  }

  /** The last planned intent with this ID. */
  ghost predicate Latest(planned: seq<Planned>, id: string, k: nat) {
    k < |planned| && planned[k].intent.id == id && forall l :: k < l < |planned| ==> planned[l].intent.id != id
  }

  /** Every intent has an entry, and every entry holds the paths of the last intent with its ID. */
  ghost predicate Recorded(paths: map<string, seq<Path>>, planned: seq<Planned>) {
    && (forall k :: 0 <= k < |planned| ==> planned[k].intent.id in paths)
    && forall id :: id in paths ==> exists k: nat ::
         Latest(planned, id, k) && paths[id] == PathsOf(planned[k].intent.source, planned[k].paths)
  }

  lemma RecordedPaths(paths: map<string, seq<Path>>, planned: seq<Planned>, id: string) returns (k: nat)
    requires Recorded(paths, planned) && id in paths
    ensures k < |planned| && paths[id] == PathsOf(planned[k].intent.source, planned[k].paths)
  {
    hide PathsOf;
    k :| Latest(planned, id, k) && paths[id] == PathsOf(planned[k].intent.source, planned[k].paths);
  }

  lemma RecordedGrows(paths: map<string, seq<Path>>, planned: seq<Planned>, next: Planned)
    requires Recorded(paths, planned)
    ensures Recorded(paths[next.intent.id := PathsOf(next.intent.source, next.paths)], planned + [next])
  {
    hide PathsOf;
    var after, more := paths[next.intent.id := PathsOf(next.intent.source, next.paths)], planned + [next];
    assert more[|planned|] == next;
    forall id | id in after
      ensures exists k: nat :: Latest(more, id, k) && after[id] == PathsOf(more[k].intent.source, more[k].paths)
    {
      if id != next.intent.id {
        var k: nat :| Latest(planned, id, k) && paths[id] == PathsOf(planned[k].intent.source, planned[k].paths);
        assert Latest(more, id, k);
      } else {
        assert Latest(more, id, |planned|);
      }
    }
  }

  /** Everything planned so far. */
  ghost predicate Progress(snapshot: Snapshot, planned: seq<Planned>, ordered: seq<Intent>, config: Config, now: Time,
                           address: Addressing, parses: string -> bool, expires: Time)
  {
    && |planned| <= |ordered|
    && forall k :: 0 <= k < |planned| ==>
         && PlannedWell(snapshot, planned[k], config, now, address, parses)
         && planned[k].intent == ordered[k].(destination := planned[k].intent.destination)
         && Nearest(planned[k], ordered[k], config, now)
         && Remaining(snapshot, planned[..k], planned[k].residual)
         && Outlives(planned[k].paths, expires)
  }

  lemma ProgressGrows(snapshot: Snapshot, planned: seq<Planned>, ordered: seq<Intent>, config: Config, now: Time,
                      address: Addressing, parses: string -> bool, expires: Time, next: Planned, expires': Time)
    requires Progress(snapshot, planned, ordered, config, now, address, parses, expires) && |planned| < |ordered|
    requires PlannedWell(snapshot, next, config, now, address, parses)
    requires next.intent == ordered[|planned|].(destination := next.intent.destination)
    requires Nearest(next, ordered[|planned|], config, now) && Remaining(snapshot, planned, next.residual)
    requires expires' <= expires && Outlives(next.paths, expires')
    ensures Progress(snapshot, planned + [next], ordered, config, now, address, parses, expires')
  {
    hide PlannedWell, Nearest, Remaining, Outlives;
    var more := planned + [next];
    assert forall k :: 0 <= k < |planned| ==> more[..k] == planned[..k];
    assert more[..|planned|] == planned;
    forall k | 0 <= k < |more| ensures Outlives(more[k].paths, expires') {
      if k < |planned| {
        OutlivesShorter(planned[k].paths, expires, expires');
      }
    }
  }

  lemma OutlivesShorter(paths: seq<seq<Edge>>, expires: Time, expires': Time)
    requires Outlives(paths, expires) && expires' <= expires
    ensures Outlives(paths, expires')
  {
  }

  lemma ProgressShorter(snapshot: Snapshot, planned: seq<Planned>, ordered: seq<Intent>, config: Config, now: Time,
                        address: Addressing, parses: string -> bool, expires: Time, expires': Time)
    requires Progress(snapshot, planned, ordered, config, now, address, parses, expires) && expires' <= expires
    ensures Progress(snapshot, planned, ordered, config, now, address, parses, expires')
  {
    hide PlannedWell, Nearest, Remaining, Outlives;
    forall k | 0 <= k < |planned| ensures Outlives(planned[k].paths, expires') {
      OutlivesShorter(planned[k].paths, expires, expires');
    }
  }

  /** Some intents are planned and the next one cannot be. */
  ghost predicate Halted(snapshot: Snapshot, intents: seq<Intent>, config: Config, now: Time, address: Addressing,
                         parses: string -> bool, planned: seq<Planned>, residual: Snapshot,
                         reservations: map<string, int>)
  {
    var ordered := SortBy(intents, IntentLess);
    && |planned| < |ordered| && Progress(snapshot, planned, ordered, config, now, address, parses, 0)
    && Conserved(snapshot, residual, reservations, planned)
    && exists next :: Stuck(residual, ordered[|planned|], next, config, now, address, parses)
  }

  /** Build a plan for all intents, the most important first, reserving capacity as it goes. It fails only on
      an unusable topology, or when the next intent cannot be planned on what is left. */
  method Build(snapshot: Snapshot, intents: seq<Intent>, now: Time, config: Config,
               address: Addressing, parses: string -> bool, digest: Plan -> string)
    returns (r: Result<Plan>, ghost planned: seq<Planned>, ghost residual: Snapshot, reservations: map<string, int>)
    requires Ranged(snapshot)
    ensures r.Success? ==>
              && snapshot.Valid() && (snapshot.validUntil != 0 ==> now < snapshot.validUntil)
              && now < r.value.expiresAt <= now + config.ttl && |r.value.intents| == |intents|
              && (snapshot.validUntil != 0 ==> r.value.expiresAt <= snapshot.validUntil)
    ensures r.Success? ==>
              && |planned| == |intents|
              && Progress(snapshot, planned, SortBy(intents, IntentLess), config, now, address, parses,
                          r.value.expiresAt)
              && Describes(snapshot, r.value, planned, address)
              && Conserved(snapshot, residual, reservations, planned)
    ensures r.Failure? ==>
              || !snapshot.Valid() || (snapshot.validUntil != 0 && now >= snapshot.validUntil)
              || Halted(snapshot, intents, config, now, address, parses, planned, residual, reservations)
  {
    hide Snapshot.Valid, Ranged, ResidualOf, WellPlanned, Addressed, SortBy, RoutesFor, Emitted, Conserved, Progress,
         Nearest, Stuck, Lasting, Remaining, Recorded, IntentsOf, PathsOf, Outlives, Reduced, ReservedOn, LinkIds;
    planned, residual, reservations := [], snapshot, map[];
    if !snapshot.Valid() {
      return Failure("invalid topology"), planned, residual, reservations;
    }
    if snapshot.validUntil != 0 && now >= snapshot.validUntil {
      return Failure("topology snapshot has expired"), planned, residual, reservations;
    }
    ValidIds(snapshot);
    var index := IndexLinks(snapshot.links);
    var ordered := SortBy(intents, IntentLess);
    var left := snapshot;
    StartConserved(snapshot);
    var expires: Time := now + config.ttl;
    var chosen: seq<Intent>, paths: map<string, seq<Path>>, routes: seq<Route> := [], map[], [];
    BuildStarts(snapshot, ordered, config, now, address, parses, expires);
    for i := 0 to |ordered|
      invariant |planned| == i && left == residual
      invariant Progress(snapshot, planned, ordered, config, now, address, parses, expires)
                && expires <= now + config.ttl
      invariant now < expires
      invariant Conserved(snapshot, residual, reservations, planned)
      invariant routes == Emitted(address, planned) && chosen == IntentsOf(planned) && Recorded(paths, planned)
    {
      ConservedResidual(snapshot, residual, reservations, planned);
      var one;
      ghost var next;
      one, next := PlanOne(snapshot, left, ordered[i], config, now, address, parses);
      if one.Failure? {
        ProgressShorter(snapshot, planned, ordered, config, now, address, parses, expires, 0);
        return Failure(one.error), planned, residual, reservations;
      }
      var intent, found, emitted := one.value.0, one.value.1, one.value.2;
      EmittedGrows(address, planned, next);
      RecordedGrows(paths, planned, next);
      chosen, paths, routes := chosen + [intent], paths[intent.id := found], routes + emitted;
      PlannedFacts(snapshot, next, config, now);
      if intent.demand > 0 {
        ReservePre(snapshot, next, config, now);
        var links, booked := Reserve(left.links, found[0].links, intent.demand, reservations);
        ReserveConserves(snapshot, residual, reservations, planned, next, config, now, links, booked);
        left, residual, reservations := left.(links := links), residual.(links := links), booked;
      } else {
        NothingToReserve(snapshot, residual, reservations, planned, next);
      }
      LinksKnown(snapshot, next, config, now, index);
      PathsLast(next, config, now);
      var ends := Lifetime(found, next.paths, intent.source, index, expires, now);
      ProgressGrows(snapshot, planned, ordered, config, now, address, parses, expires, next, ends);
      expires, planned := ends, planned + [next];
    }
    if snapshot.validUntil != 0 && snapshot.validUntil < expires {
      ProgressShorter(snapshot, planned, ordered, config, now, address, parses, expires, snapshot.validUntil);
      expires := snapshot.validUntil;
    }
    // the remaining lifetime is checked here, but no path chosen at `now` ends before it
    var plan := Plan("", snapshot.version, expires, chosen, paths, SortRoutes(routes));
    plan := plan.(id := "rp-" + digest(plan));
    r := Success(plan);
  }

  lemma ValidIds(snapshot: Snapshot)
    requires snapshot.Valid()
    ensures forall i, j :: 0 <= i < j < |snapshot.links| ==> snapshot.links[i].id != snapshot.links[j].id
  {
  }

  lemma BuildStarts(snapshot: Snapshot, ordered: seq<Intent>, config: Config, now: Time,
                    address: Addressing, parses: string -> bool, expires: Time)
    ensures Progress(snapshot, [], ordered, config, now, address, parses, expires)
    ensures Emitted(address, []) == [] && IntentsOf([]) == [] && Recorded(map[], [])
  {
  }

  lemma ConservedResidual(snapshot: Snapshot, residual: Snapshot, reservations: map<string, int>, planned: seq<Planned>)
    requires Conserved(snapshot, residual, reservations, planned)
    ensures ResidualOf(snapshot, residual) && Remaining(snapshot, planned, residual)
  {
    hide Load, ReservedOn;
    forall i | 0 <= i < |snapshot.links|
      ensures residual.links[i]
                == snapshot.links[i].(capacity := snapshot.links[i].capacity - Load(planned, snapshot.links[i].id))
    {
      assert ReservedOn(reservations, snapshot.links[i].id) == Load(planned, snapshot.links[i].id);
    }
  }

  /** An intent planned before anybody reserved anything gets the shortest path of the topology itself. */
  lemma FirstIsShortest(snapshot: Snapshot, planned: seq<Planned>, ordered: seq<Intent>, config: Config, now: Time,
                        address: Addressing, parses: string -> bool, expires: Time, k: nat)
    requires Progress(snapshot, planned, ordered, config, now, address, parses, expires) && k < |planned|
    requires forall l :: 0 <= l < k ==> planned[l].intent.demand == 0
    ensures Answer(snapshot, planned[k].intent, config, now, planned[k].paths[0])
  {
    hide Answer, WellPlanned, Successive, Nearest, ResidualOf, Addressed, Outlives, Load;
    forall i | 0 <= i < |snapshot.links| ensures Load(planned[..k], snapshot.links[i].id) == 0 {
      NoLoad(planned[..k], snapshot.links[i].id);
    }
    assert planned[k].residual.links == snapshot.links;
    assert PlannedWell(snapshot, planned[k], config, now, address, parses);
    PrimaryAnswers(planned[k], config, now);
  }

  lemma PrimaryAnswers(planned: Planned, config: Config, now: Time)
    requires WellPlanned(planned, config, now)
    ensures |planned.paths| > 0 && Answer(planned.residual, planned.intent, config, now, planned.paths[0])
  {
    hide Answer, Distinct, GoodPath;
  }

  lemma {:induction false} NoLoad(planned: seq<Planned>, id: string)
    requires forall l :: 0 <= l < |planned| ==> planned[l].intent.demand == 0
    ensures Load(planned, id) == 0
  {
    if planned != [] {
      NoLoad(planned[..|planned| - 1], id);
    }
  }

  lemma PlannedFacts(snapshot: Snapshot, planned: Planned, config: Config, now: Time)
    requires WellPlanned(planned, config, now)
    ensures |planned.paths| > 0 && planned.intent.demand >= 0
    ensures |PathsOf(planned.intent.source, planned.paths)| > 0
    ensures PathsOf(planned.intent.source, planned.paths)[0].links == LinkIds(planned.paths[0])
  {
  }
}
