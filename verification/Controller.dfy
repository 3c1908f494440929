/** The controller itself: plan the current topology and roll the plan out. */
module Controller {
  import opened Basics
  import opened Names
  import opened Fabric
  import Policy
  import Planner
  import Validation
  import Probe
  import Reconciler
  import Store

  /** The devices that the plan has routes for are up and report the routes they hold. */
  ghost predicate Reports(states: map<string, Probe.State>, views: Reconciler.Views, plan: Plan) {
    forall u :: Probe.Carries(plan, u) ==>
      u in states && states[u].healthy && u in views && states[u].routes == views[u].routes
  }

  /** Devices that hold their shares of a plan have it installed. */
  lemma HoldsIsInstalled(views: Reconciler.Views, plan: Plan, states: map<string, Probe.State>)
    requires Reconciler.Holds(views, plan, Reconciler.DevicesOf(plan.routes)) && Reports(states, views, plan)
    ensures Probe.Installed(plan, states)
  {
    hide SortRoutes;
    forall u | Probe.Carries(plan, u) ensures forall r :: r in states[u].routes <==> r in plan.routes && r.device == u {
      var share := Reconciler.Share(plan.routes, u);
      assert u in Reconciler.DevicesOf(plan.routes);
      forall r ensures r in views[u].routes <==> r in share {
        assert r in multiset(SortRoutes(views[u].routes)) <==> r in multiset(views[u].routes);
        assert r in multiset(SortRoutes(share)) <==> r in multiset(share);
      }
    }
  }

  /** After a successful call every device of the plan holds its share. */
  lemma SuccessHolds(views: Reconciler.Views, after: Reconciler.Views, plan: Plan, was: Option<Plan>,
                     waiting: set<string>, isCommitted: Option<Plan>, isPending: set<string>, r: Reconciler.Reconciler)
    requires r.Succeeded(views, after, plan, was, waiting, isCommitted, isPending)
    ensures Reconciler.Holds(after, plan, Reconciler.DevicesOf(plan.routes))
  {
    hide SortRoutes;
    forall n | n in Reconciler.DevicesOf(plan.routes) ensures Reconciler.Share(plan.routes, n) != [] {
      Reconciler.SharePresent(plan.routes, n);
    }
  }

  lemma PromisedHolds(r: Reconciler.Reconciler, plan: Plan, active: seq<string>, s: Reconciler.State,
                      t: Reconciler.State)
    requires r.Promised(plan, true, active, s, t)
    ensures Reconciler.Holds(t.views, plan, Reconciler.DevicesOf(plan.routes))
  {
    hide Reconciler.Holds, Reconciler.DevicesOf, Reconciler.Reconciler.Succeeded;
    SuccessHolds(s.views, t.views, plan, s.committed, s.pending, t.committed, t.pending, r);
  }

  lemma PlanIsRolled(snapshot: Snapshot, intents: seq<Intent>, plan: Plan, planned: seq<Planner.Planned>,
                     config: Planner.Config, now: Time, address: Planner.Addressing, parses: string -> bool)
    requires snapshot.Valid() && Policy.Ranged(snapshot) && |planned| == |intents|
             && Validation.PrefixesDistinct(intents)
    requires Planner.Progress(snapshot, planned, SortBy(intents, Planner.IntentLess), config, now, address, parses,
                              plan.expiresAt)
    requires Planner.Describes(snapshot, plan, planned, address)
    ensures Probe.Rolled(snapshot, plan, planned, SortBy(intents, Planner.IntentLess), config, now, address, parses)
  {
    hide Snapshot.Valid, Policy.Ranged, Planner.Progress, Planner.Describes, Validation.PrefixesDistinct, SortBy;
    Validation.PlannedPrefixes(snapshot, intents, plan, planned, config, now, address, parses);
  }

  /** The plan is for exactly these intents, by priority, with a destination chosen for each. */
  ghost predicate PlansFor(intents: seq<Intent>, plan: Plan) {
    && |plan.intents| == |intents|
    && forall k :: 0 <= k < |intents| ==>
         plan.intents[k] == SortBy(intents, Planner.IntentLess)[k].(destination := plan.intents[k].destination)
  }

  lemma BuiltPlansFor(snapshot: Snapshot, intents: seq<Intent>, plan: Plan, planned: seq<Planner.Planned>,
                      config: Planner.Config, now: Time, address: Planner.Addressing, parses: string -> bool)
    requires |planned| == |intents| && Planner.Describes(snapshot, plan, planned, address)
    requires Planner.Progress(snapshot, planned, SortBy(intents, Planner.IntentLess), config, now, address, parses,
                              plan.expiresAt)
    ensures PlansFor(intents, plan)
  {
    hide SortBy, Planner.PlannedWell, Planner.Nearest, Planner.Remaining, Planner.Outlives, Planner.Recorded;
  }

  /** Every intent of the plan is forwarded and delivered. */
  ghost predicate Serves(snapshot: Snapshot, states: map<string, Probe.State>, at: Time, plan: Plan) {
    forall k :: 0 <= k < |plan.intents| ==>
      Probe.Forwards(snapshot, states, at, plan.intents[k]) && Probe.Delivers(snapshot, states, at, plan.intents[k])
  }

  /** As long as its devices are up and report what they hold, the network serves the plan until it expires. */
  ghost predicate Working(snapshot: Snapshot, plan: Plan, views: Reconciler.Views, now: Time) {
    forall states, at :: Reports(states, views, plan) && now <= at < plan.expiresAt ==>
          Serves(snapshot, states, at, plan)
  }

  lemma HoldsIsWorking(snapshot: Snapshot, plan: Plan, planned: seq<Planner.Planned>, ordered: seq<Intent>,
                       config: Planner.Config, now: Time, address: Planner.Addressing, parses: string -> bool,
                       views: Reconciler.Views)
    requires Probe.Rolled(snapshot, plan, planned, ordered, config, now, address, parses)
    requires Reconciler.Holds(views, plan, Reconciler.DevicesOf(plan.routes)) && |plan.intents| == |planned|
    ensures Working(snapshot, plan, views, now)
  {
    hide Probe.Rolled, Probe.Installed, Probe.Forwards, Probe.Delivers, Reports, Reconciler.Holds, Reconciler.DevicesOf;
    forall states, at | Reports(states, views, plan) && now <= at < plan.expiresAt
      ensures Serves(snapshot, states, at, plan)
    {
      HoldsIsInstalled(views, plan, states);
      forall k | 0 <= k < |plan.intents|
        ensures Probe.Forwards(snapshot, states, at, plan.intents[k])
                && Probe.Delivers(snapshot, states, at, plan.intents[k])
      {
        Probe.RolledFacts(snapshot, plan, planned, ordered, config, now, address, parses, k);
        Probe.InstalledForwards(snapshot, plan, planned, ordered, config, now, address, parses, states, k, at);
        Probe.ForwardsDelivers(snapshot, states, at, plan.intents[k], [plan.intents[k].source]);
      }
    }
  }

  datatype Outcome = NotLeader | Unplanned(error: string) | RolledBack(plan: Plan) | Applied(plan: Plan)

  class App {
    const config: Planner.Config
    const store: Store.TopologyStore
    const reconciler: Reconciler.Reconciler
    var intents: seq<Intent>

    constructor (ttl: int, maxAge: Time, nodeDisjoint: bool, store: Store.TopologyStore,
                 reconciler: Reconciler.Reconciler, intents: seq<Intent>)
      ensures this.store == store && this.reconciler == reconciler && this.intents == intents
      ensures config == Planner.Config(if ttl <= 0 then 30_000_000_000 else ttl, maxAge, nodeDisjoint)
    {
      this.config, this.store, this.reconciler := Planner.New(ttl, maxAge, nodeDisjoint), store, reconciler;
      this.intents := intents;
    }

    /** Plan and apply. Success means that the network serves every intent until the plan expires. */
    method Reconcile(leader: bool, now: Time, address: Planner.Addressing, parses: string -> bool,
                     digest: Plan -> string, weather: Reconciler.Weather)
      returns (r: Outcome, ghost active: seq<string>)
      requires reconciler.Wired() && Reconciler.Idle(reconciler.Now()) && Policy.Ranged(store.snapshot)
      modifies reconciler, reconciler.Devices(), reconciler.journal
      ensures r.NotLeader? <==> !leader
      ensures r.NotLeader? || r.Unplanned? ==> reconciler.Books() == old(reconciler.Books())
      ensures r.RolledBack? ==> reconciler.Promised(r.plan, false, active, old(reconciler.Books()), reconciler.Books())
      ensures r.RolledBack? && reconciler.Harmless(r.plan, old(reconciler.Books())) ==>
                reconciler.AsBefore(old(reconciler.Now()), reconciler.Now())
      ensures r.RolledBack? && weather.Calm? ==>
                !reconciler.Feasible(r.plan, old(reconciler.Now()), old(reconciler.committed), old(reconciler.pending))
      ensures r.Applied? ==> reconciler.Promised(r.plan, true, active, old(reconciler.Books()), reconciler.Books())
      ensures r.Applied? || r.RolledBack? ==> PlansFor(intents, r.plan)
      ensures r.Applied? && Validation.PrefixesDistinct(intents) ==>
                Working(store.snapshot, r.plan, reconciler.Now(), now)
    {
      hide Snapshot.Valid, Policy.Ranged, Planner.Progress, Planner.Describes, Planner.Conserved, Planner.Halted,
           SortBy, Probe.Rolled, Validation.PrefixesDistinct, Working, PlansFor, Reconciler.Idle, Reconciler.Holds,
           Reconciler.DevicesOf;
      hide Reconciler.Reconciler.Promised, Reconciler.Reconciler.Feasible, Reconciler.Reconciler.Harmless,
           Reconciler.Reconciler.AsBefore, Reconciler.Reconciler.Now, Reconciler.Reconciler.Wired;
      active := [];
      if !leader {
        return NotLeader, [];
      }
      var plan, planned, residual, reservations := Planner.Build(store.snapshot, intents, now, config, address, parses,
                                                                 digest);
      if plan.Failure? {
        return Unplanned(plan.error), [];
      }
      BuiltPlansFor(store.snapshot, intents, plan.value, planned, config, now, address, parses);
      ghost var before := reconciler.Books();
      var ok;
      ok, active := reconciler.Apply(plan.value, weather);
      if !ok {
        return RolledBack(plan.value), active;
      }
      if Validation.PrefixesDistinct(intents) {
        PlanIsRolled(store.snapshot, intents, plan.value, planned, config, now, address, parses);
        PromisedHolds(reconciler, plan.value, active, before, reconciler.Books());
        HoldsIsWorking(store.snapshot, plan.value, planned, SortBy(intents, Planner.IntentLess), config, now, address,
                       parses,
                       reconciler.Now());
      }
      return Applied(plan.value), active;
    }
  }
}
