/** The two-phase route commit: prepare everywhere, commit in canary batches with verification after
    each, and roll everything back on any failure. Health, faults, validity and persistence are free
    at every call, unless the weather of a call says otherwise. */
module Reconciler {
  import opened Basics
  import opened Names
  import opened Fabric
  import opened Device

  function Share(routes: seq<Route>, name: string): (r: seq<Route>)
    ensures forall x :: x in r <==> x in routes && x.device == name
  {
    if routes == [] then [] else
      var last := routes[|routes| - 1];
      Share(routes[..|routes| - 1], name) + if last.device == name then [last] else []
  }

  function DevicesOf(routes: seq<Route>): set<string> {
    set r | r in routes :: r.device
  }

  function DevicesOfPlan(plan: Option<Plan>): set<string> {
    if plan.Some? then DevicesOf(plan.value.routes) else {}
  }

  type Views = map<string, View>

  /** Which outcomes of device calls, validation and persistence a call may meet: any, or only good ones, or those in
      which every device can be prepared but none can be committed or read back. */
  datatype Weather = Free | Calm | Broken

  /** What a call starts from and what it leaves behind. */
  datatype State = State(views: Views, committed: Option<Plan>, pending: set<string>, log: seq<Entry>)

  function SetOf(names: seq<string>): (r: set<string>)
    ensures forall n :: n in r <==> n in names
  {
    set n | n in names
  }

  // ---- what a call does to one device --------------------------------------------------------

  /** A device that has taken part in the transaction so far. */
  ghost predicate InFlight(before: View, now: View, id: string, share: seq<Route>) {
    if before.applied == id then now == before
    else now == Opened(before, id, share) || now == Switched(before, id, share)
  }

  /** A device after the transaction was rolled back. */
  ghost predicate RolledBack(before: View, after: View, id: string) {
    && after.prepared == map[]
    && (forall h :: h in after.history ==> h in before.history && after.history[h] == before.history[h])
    && if before.applied == id then after == Undone(before, id)
       else after.routes == before.routes && after.applied == before.applied
  }

  lemma UndoneIsRolledBack(before: View, now: View, id: string, share: seq<Route>)
    requires before.prepared == map[] && InFlight(before, now, id, share)
    ensures RolledBack(before, Undone(now, id), id)
  {
    UndoOpened(before, id, share);
    UndoSwitched(before, id, share);
  }

  /** No device has another plan applied than before. */
  ghost predicate SameApplied(before: Views, now: Views) {
    now.Keys == before.Keys && forall n :: n in before ==> now[n].applied == before[n].applied
  }

  /** Devices in `names` have taken part, the others are as before. */
  ghost predicate Staged(before: Views, now: Views, plan: Plan, names: set<string>) {
    && now.Keys == before.Keys
    && forall n :: n in before ==>
         if n in names then InFlight(before[n], now[n], plan.id, Share(plan.routes, n)) else now[n] == before[n]
  }

  /** As `Staged`, with the transaction rolled back on the devices in `undone`. */
  ghost predicate Undoing(before: Views, now: Views, plan: Plan, names: set<string>, undone: set<string>) {
    && now.Keys == before.Keys
    && forall n :: n in before ==>
         if n in undone then RolledBack(before[n], now[n], plan.id)
         else if n in names then InFlight(before[n], now[n], plan.id, Share(plan.routes, n))
         else now[n] == before[n]
  }

  ghost predicate Idle(views: Views) {
    forall n :: n in views ==> views[n].prepared == map[]
  }

  /** Every device holds exactly the share of the plan it has applied. */
  ghost predicate Holds(views: Views, plan: Plan, names: set<string>) {
    forall n :: n in names ==>
      n in views && views[n].applied == plan.id && SortRoutes(views[n].routes) == SortRoutes(Share(plan.routes, n))
  }

  // ---- what the sequence of calls keeps ------------------------------------------------------

  /** What device `name` holds after applying plan `id`. */
  ghost function Held(plans: string -> seq<Route>, id: string, name: string): seq<Route> {
    SortRoutes(Share(plans(id), name))
  }

  /** Plan IDs determine plans: a device holds the share of the plan it has applied, and remembers
      the shares of the plans before. */
  ghost predicate Consistent(plans: string -> seq<Route>, name: string, v: View) {
    && v.routes == Held(plans, v.applied, name)
    && forall h :: h in v.history ==> v.history[h].previous == Held(plans, v.history[h].previousId, name)
  }

  ghost predicate AllConsistent(plans: string -> seq<Route>, views: Views) {
    forall n :: n in views ==> Consistent(plans, n, views[n])
  }

  /** A device with routes is named by the committed plan or waits for cleanup. */
  ghost predicate Covered(views: Views, committed: Option<Plan>, pending: set<string>) {
    forall n :: n in views && views[n].routes != [] ==> n in DevicesOfPlan(committed) || n in pending
  }

  /** New devices satisfy everything that calls keep. */
  lemma FreshIsTracked(plans: string -> seq<Route>, views: Views)
    requires plans("") == [] && forall n :: n in views ==> views[n] == View([], "", map[], map[])
    ensures Idle(views) && AllConsistent(plans, views) && Covered(views, None, {})
  {
    forall n | n in views ensures Held(plans, "", n) == [] {
    }
  }

  lemma SharePresent(routes: seq<Route>, n: string)
    ensures n in DevicesOf(routes) <==> Share(routes, n) != []
    ensures n in DevicesOf(routes) <==> SortRoutes(Share(routes, n)) != []
  {
    var share := Share(routes, n);
    if share != [] {
      assert share[0] in share;
    }
    if n in DevicesOf(routes) {
      var r :| r in routes && r.device == n;
      assert r in share;
    }
    assert |SortRoutes(share)| == |share|;
  }

  lemma RolledBackConsistent(plans: string -> seq<Route>, name: string, before: View, after: View, id: string)
    requires before.prepared == map[] && Consistent(plans, name, before) && RolledBack(before, after, id)
    ensures Consistent(plans, name, after)
  {
    hide Held;
  }

  /** A failed call keeps the books: devices stay consistent and covered, even when the plan had been
      applied before. */
  lemma FailureKeepsTrack(plans: string -> seq<Route>, before: Views, after: Views, plan: Plan, names: set<string>,
                          committed: Option<Plan>, pending: set<string>)
    requires Idle(before) && AllConsistent(plans, before) && Covered(before, committed, pending)
    requires plan.routes == plans(plan.id)
    requires names <= DevicesOf(plan.routes) + DevicesOfPlan(committed) + pending
    requires Undoing(before, after, plan, names, names)
    ensures Idle(after) && AllConsistent(plans, after) && Covered(after, committed, pending)
  {
    hide SortRoutes, Share, Undone;
    forall n | n in after
      ensures after[n].prepared == map[] && Consistent(plans, n, after[n])
      ensures after[n].routes != [] ==> n in DevicesOfPlan(committed) || n in pending
    {
      if n in names {
        RolledBackConsistent(plans, n, before[n], after[n], plan.id);
        SharePresent(plan.routes, n);
      }
    }
  }

  /** A successful call leaves every device outside `deferred` with its share. */
  ghost predicate Delivered(before: Views, after: Views, plan: Plan, names: set<string>, deferred: set<string>) {
    && after.Keys == before.Keys && names <= before.Keys && deferred <= names
    && forall n :: n in before ==>
         if n in names && n !in deferred
         then after[n] == if before[n].applied == plan.id then before[n]
             else Switched(before[n], plan.id, Share(plan.routes, n))
         else after[n] == before[n]
  }

  lemma SwitchedConsistent(plans: string -> seq<Route>, name: string, v: View, plan: Plan)
    requires Consistent(plans, name, v) && plan.routes == plans(plan.id)
    ensures Consistent(plans, name, Switched(v, plan.id, Share(plan.routes, name)))
    ensures v.applied == plan.id ==> v.routes == SortRoutes(Share(plan.routes, name))
  {
    hide SortRoutes, Share;
  }

  lemma SuccessKeepsTrack(plans: string -> seq<Route>, before: Views, after: Views, plan: Plan, names: set<string>,
                          deferred: set<string>, committed: Option<Plan>, pending: set<string>)
    requires Idle(before) && AllConsistent(plans, before) && Covered(before, committed, pending)
    requires plan.routes == plans(plan.id)
    requires names == DevicesOf(plan.routes) + DevicesOfPlan(committed) + pending
    requires Delivered(before, after, plan, names, deferred)
    ensures Idle(after) && AllConsistent(plans, after) && Covered(after, Some(plan), deferred)
  {
    hide Consistent, SortRoutes, Share;
    forall n | n in after
      ensures after[n].prepared == map[] && Consistent(plans, n, after[n])
      ensures after[n].routes != [] ==> n in DevicesOf(plan.routes) || n in deferred
    {
      SharePresent(plan.routes, n);
      SwitchedConsistent(plans, n, before[n], plan);
    }
  }

  // ---- steps on the views --------------------------------------------------------------------

  lemma StagePrepared(before: Views, now: Views, plan: Plan, names: set<string>, n: string, after: View)
    requires Staged(before, now, plan, names) && Idle(before) && n in before && n !in names
    requires after == AfterPrepare(now[n], plan.id, Share(plan.routes, n))
    ensures Staged(before, now[n := after], plan, names + {n})
  {
    hide Share;
  }

  lemma StageCommitted(before: Views, now: Views, plan: Plan, names: set<string>, n: string)
    requires Staged(before, now, plan, names) && Idle(before) && n in before && n in names
    ensures plan.id == now[n].applied || plan.id in now[n].prepared
    ensures AfterCommit(now[n], plan.id) == if plan.id == now[n].applied then now[n]
              else Switched(before[n], plan.id, Share(plan.routes, n))
    ensures Staged(before, now[n := AfterCommit(now[n], plan.id)], plan, names)
  {
    hide Share, SortRoutes;
    if before[n].applied != plan.id {
      CommitAfterPrepare(before[n], plan.id, Share(plan.routes, n));
    }
    assert InFlight(before[n], now[n], plan.id, Share(plan.routes, n));
  }

  lemma StageUndone(before: Views, now: Views, plan: Plan, names: set<string>, undone: set<string>, n: string)
    requires Undoing(before, now, plan, names, undone) && Idle(before) && n in before && n in names && n !in undone
    ensures Undoing(before, now[n := Undone(now[n], plan.id)], plan, names, undone + {n})
  {
    hide Share, Undone, RolledBack;
    UndoneIsRolledBack(before[n], now[n], plan.id, Share(plan.routes, n));
  }

  lemma StagedIsUndoing(before: Views, now: Views, plan: Plan, names: set<string>)
    requires Staged(before, now, plan, names)
    ensures Undoing(before, now, plan, names, {})
  {
    hide Share, InFlight;
  }

  lemma NobodyStaged(now: Views, plan: Plan)
    ensures Staged(now, now, plan, SetOf([]))
  {
  }

  /** Devices that hold their share after taking part have been switched to it. */
  lemma StagedDelivered(before: Views, now: Views, plan: Plan, all: set<string>, active: set<string>,
                        deferred: set<string>)
    requires Staged(before, now, plan, active) && Holds(now, plan, active)
    requires all == active + deferred && active !! deferred && all <= before.Keys
    ensures Delivered(before, now, plan, all, deferred)
  {
    hide Share, SortRoutes;
  }

  /** The devices in `names` have been switched to the plan. */
  ghost predicate Reached(before: Views, now: Views, plan: Plan, names: set<string>) {
    forall n :: n in names ==>
      && n in before && n in now
      && now[n] == if before[n].applied == plan.id then before[n]
           else Switched(before[n], plan.id, Share(plan.routes, n))
  }

  lemma ReachedHolds(plans: string -> seq<Route>, before: Views, now: Views, plan: Plan, names: set<string>)
    requires Reached(before, now, plan, names) && AllConsistent(plans, before) && plan.routes == plans(plan.id)
    ensures Holds(now, plan, names)
  {
    hide SortRoutes, Share;
    forall n | n in names
      ensures now[n].applied == plan.id && SortRoutes(now[n].routes) == SortRoutes(Share(plan.routes, n))
    {
      SortRoutesIdempotent(Share(plan.routes, n));
    }
  }

  /** Committing `n` leaves the other devices where they were. */
  lemma ReachedGrows(before: Views, now: Views, after: Views, plan: Plan, names: set<string>, n: string,
                     active: set<string>)
    requires Staged(before, now, plan, active) && Idle(before) && Reached(before, now, plan, names) && n in before
             && n in active
    requires n in after && after == now[n := after[n]]
    requires after[n] == if plan.id == now[n].applied then now[n]
               else Switched(before[n], plan.id, Share(plan.routes, n))
    ensures Reached(before, after, plan, names + {n})
  {
    hide SortRoutes, Share;
    assert n in names || now[n].applied == plan.id ==> InFlight(before[n], now[n], plan.id, Share(plan.routes, n));
  }

  // ---- canary batches ------------------------------------------------------------------------

  /** The device was read and held exactly its share of the plan. */
  ghost predicate Shows(e: Entry, n: string, plan: Plan) {
    e.Reads? && e.name == n && e.applied == plan.id && SortRoutes(e.routes) == SortRoutes(Share(plan.routes, n))
  }

  ghost predicate Logged(log: seq<Entry>, from: nat, upto: nat, n: string, id: string) {
    upto <= |log| && exists c :: from <= c < upto && log[c] == Commits(n, id, true)
  }

  /** The device committed the plan, and was read after that and held its share. */
  ghost predicate Checked(log: seq<Entry>, from: nat, upto: nat, n: string, plan: Plan) {
    upto <= |log| &&
    exists c, q :: from <= c < q < upto && log[c] == Commits(n, plan.id, true) && Shows(log[q], n, plan)
  }

  /** Where the batch of a position begins. */
  function Batch(i: nat, size: nat): (b: nat)
    requires size > 0
    ensures b <= i < b + size
  {
    if i < size then 0 else Batch(i - size, size) + size
  }

  /** A multiple of the batch size. */
  predicate Begins(start: nat, size: nat)
    requires size > 0
  {
    start == 0 || (start >= size && Begins(start - size, size))
  }

  lemma {:induction false} BatchOf(start: nat, size: nat, i: nat)
    requires size > 0 && Begins(start, size) && start <= i < start + size
    ensures Batch(i, size) == start
  {
    if start > 0 {
      BatchOf(start - size, size, i - size);
    }
  }

  /** The commit at `p` was asked of a participant when all participants of earlier batches had been checked. */
  ghost predicate InTurn(log: seq<Entry>, from: nat, p: nat, active: seq<string>, size: nat, plan: Plan)
    requires p < |log| && size > 0
  {
    log[p].Commits? &&
    exists i :: 0 <= i < |active| && log[p] == Commits(active[i], plan.id, log[p].ok)
                && forall b :: 0 <= b < Batch(i, size) ==> Checked(log, from, p, active[b], plan)
  }

  /** No commit is even attempted before every participant of the batches before it was checked. */
  ghost predicate Gated(log: seq<Entry>, from: nat, active: seq<string>, size: nat, plan: Plan)
    requires size > 0
  {
    forall p :: from <= p < |log| && log[p].Commits? ==> InTurn(log, from, p, active, size, plan)
  }

  ghost predicate OnlyReads(log: seq<Entry>, from: nat) {
    forall p :: from <= p < |log| ==> log[p].Reads?
  }

  /** Attempts to commit one plan on one device, the last of them with this outcome. */
  ghost predicate OnlyCommits(log: seq<Entry>, from: nat, n: string, id: string, ok: bool) {
    from < |log| && forall p :: from <= p < |log| ==> log[p] == Commits(n, id, ok && p == |log| - 1)
  }

  lemma CommitsMore(log: seq<Entry>, from: nat, n: string, id: string, ok: bool)
    requires from == |log| || OnlyCommits(log, from, n, id, false)
    ensures OnlyCommits(log + [Commits(n, id, ok)], from, n, id, ok)
  {
  }

  lemma CheckedLater(log: seq<Entry>, more: seq<Entry>, from: nat, upto: nat, upto': nat, n: string, plan: Plan)
    requires log <= more && upto <= upto' <= |more| && Checked(log, from, upto, n, plan)
    ensures Checked(more, from, upto', n, plan)
  {
    hide Shows;
    var c, q :| from <= c < q < upto && log[c] == Commits(n, plan.id, true) && Shows(log[q], n, plan);
    assert more[c] == log[c] && more[q] == log[q];
  }

  lemma InTurnStays(log: seq<Entry>, more: seq<Entry>, from: nat, p: nat, active: seq<string>, size: nat, plan: Plan)
    requires size > 0 && log <= more && p < |log| && log[p].Commits? && InTurn(log, from, p, active, size, plan)
    ensures InTurn(more, from, p, active, size, plan)
  {
    hide Checked, Batch;
    var i :| 0 <= i < |active| && log[p] == Commits(active[i], plan.id, log[p].ok)
             && forall b :: 0 <= b < Batch(i, size) ==> Checked(log, from, p, active[b], plan);
    assert more[p] == log[p];
    forall b | 0 <= b < Batch(i, size) ensures Checked(more, from, p, active[b], plan) {
      CheckedLater(log, more, from, p, p, active[b], plan);
    }
  }

  /** Reading devices does not disturb the gates. */
  lemma GatedReads(log: seq<Entry>, more: seq<Entry>, from: nat, active: seq<string>, size: nat, plan: Plan)
    requires size > 0 && log <= more && Gated(log, from, active, size, plan) && OnlyReads(more, |log|)
    ensures Gated(more, from, active, size, plan)
  {
    hide InTurn;
    forall p | from <= p < |more| && more[p].Commits? ensures InTurn(more, from, p, active, size, plan) {
      assert p < |log| && more[p] == log[p];
      InTurnStays(log, more, from, p, active, size, plan);
    }
  }

  /** Commits of a participant whose earlier batches are checked keep the gates. */
  lemma GatedCommits(log: seq<Entry>, more: seq<Entry>, from: nat, active: seq<string>, size: nat, plan: Plan, i: nat,
                     ok: bool)
    requires size > 0 && i < |active| && from <= |log| && log <= more && Gated(log, from, active, size, plan)
    requires OnlyCommits(more, |log|, active[i], plan.id, ok)
    requires forall b :: 0 <= b < Batch(i, size) ==> Checked(log, from, |log|, active[b], plan)
    ensures Gated(more, from, active, size, plan)
  {
    hide InTurn, Checked, Batch;
    forall p | from <= p < |more| && more[p].Commits? ensures InTurn(more, from, p, active, size, plan) {
      if p < |log| {
        assert more[p] == log[p];
        InTurnStays(log, more, from, p, active, size, plan);
      } else {
        NewInTurn(log, more, from, active, size, plan, i, ok, p);
      }
    }
  }

  lemma NewInTurn(log: seq<Entry>, more: seq<Entry>, from: nat, active: seq<string>, size: nat, plan: Plan, i: nat,
                  ok: bool, p: nat)
    requires size > 0 && i < |active| && log <= more && |log| <= p < |more|
    requires OnlyCommits(more, |log|, active[i], plan.id, ok)
    requires forall b :: 0 <= b < Batch(i, size) ==> Checked(log, from, |log|, active[b], plan)
    ensures InTurn(more, from, p, active, size, plan)
  {
    hide Checked, Batch;
    forall b | 0 <= b < Batch(i, size) ensures Checked(more, from, p, active[b], plan) {
      CheckedLater(log, more, from, |log|, p, active[b], plan);
    }
  }

  /** A log can be looked at from an earlier point if nothing but reads lies between. */
  lemma GatedEarlier(log: seq<Entry>, from: nat, earlier: nat, active: seq<string>, size: nat, plan: Plan)
    requires size > 0 && earlier <= from <= |log| && Gated(log, from, active, size, plan)
    requires forall p :: earlier <= p < from ==> log[p].Reads?
    ensures Gated(log, earlier, active, size, plan)
  {
    hide Batch, Shows;
    forall p | earlier <= p < |log| && log[p].Commits? ensures InTurn(log, earlier, p, active, size, plan) {
      assert InTurn(log, from, p, active, size, plan);
      var i :| 0 <= i < |active| && log[p] == Commits(active[i], plan.id, log[p].ok)
               && forall b :: 0 <= b < Batch(i, size) ==> Checked(log, from, p, active[b], plan);
      forall b | 0 <= b < Batch(i, size) ensures Checked(log, earlier, p, active[b], plan) {
        assert Checked(log, from, p, active[b], plan);
      }
    }
  }

  /** A commit and a later read make a check. */
  lemma CheckedNow(log: seq<Entry>, more: seq<Entry>, from: nat, n: string, plan: Plan)
    requires log <= more && Logged(log, from, |log|, n, plan.id) && Seen(more, |log|, n, plan)
    ensures Checked(more, from, |more|, n, plan)
  {
    hide Shows;
    var c :| from <= c < |log| && log[c] == Commits(n, plan.id, true);
    var q :| |log| <= q < |more| && Shows(more[q], n, plan);
    assert more[c] == log[c];
  }

  ghost predicate Seen(log: seq<Entry>, from: nat, n: string, plan: Plan) {
    exists q :: from <= q < |log| && Shows(log[q], n, plan)
  }

  lemma SeenLater(log: seq<Entry>, more: seq<Entry>, from: nat, n: string, plan: Plan)
    requires log <= more && Seen(log, from, n, plan)
    ensures Seen(more, from, n, plan)
  {
    hide Shows;
    var q :| from <= q < |log| && Shows(log[q], n, plan);
    assert more[q] == log[q];
  }

  lemma LoggedLater(log: seq<Entry>, more: seq<Entry>, from: nat, n: string, id: string)
    requires log <= more && Logged(log, from, |log|, n, id)
    ensures Logged(more, from, |more|, n, id)
  {
    var c :| from <= c < |log| && log[c] == Commits(n, id, true);
    assert more[c] == log[c];
  }

  /** Some commit of the plan was attempted on the device. */
  ghost predicate Attempted(log: seq<Entry>, from: nat, n: string, id: string) {
    exists c :: from <= c < |log| && log[c].Commits? && log[c].name == n && log[c].id == id
  }

  lemma AttemptedLater(log: seq<Entry>, more: seq<Entry>, from: nat, n: string, id: string)
    requires log <= more && Attempted(log, from, n, id)
    ensures Attempted(more, from, n, id)
  {
    var c :| from <= c < |log| && log[c].Commits? && log[c].name == n && log[c].id == id;
    assert more[c] == log[c];
  }

  /** Whatever changed on a device is accounted for by a commit in the log. */
  ghost predicate Accounted(was: Views, now: Views, log: seq<Entry>, from: nat, id: string) {
    now.Keys == was.Keys && forall n :: n in was ==> now[n] == was[n] || Logged(log, from, |log|, n, id)
  }

  lemma AccountedGrows(was: Views, now: Views, after: Views, log: seq<Entry>, more: seq<Entry>, from: nat, n: string,
                       id: string, ok: bool)
    requires Accounted(was, now, log, from, id) && log <= more && from <= |log| && n in now && n in after
             && after == now[n := after[n]]
    requires OnlyCommits(more, |log|, n, id, ok) && (after[n] == now[n] || ok)
    ensures Accounted(was, after, more, from, id)
    ensures ok ==> Logged(more, from, |more|, n, id)
    ensures Attempted(more, |log|, n, id)
  {
    hide Logged;
    if ok {
      assert more[|more| - 1] == Commits(n, id, true);
      LoggedHere(more, from, n, id);
    }
    assert more[|log|].Commits?;
    forall m | m in was ensures after[m] == was[m] || Logged(more, from, |more|, m, id) {
      if Logged(log, from, |log|, m, id) {
        LoggedLater(log, more, from, m, id);
      }
    }
  }

  lemma LoggedHere(log: seq<Entry>, from: nat, n: string, id: string)
    requires from < |log| && log[|log| - 1] == Commits(n, id, true)
    ensures Logged(log, from, |log|, n, id)
  {
  }

  lemma AccountedLater(was: Views, now: Views, log: seq<Entry>, more: seq<Entry>, from: nat, id: string)
    requires Accounted(was, now, log, from, id) && log <= more
    ensures Accounted(was, now, more, from, id)
  {
    hide Logged;
    forall m | m in was && now[m] != was[m] ensures Logged(more, from, |more|, m, id) {
      LoggedLater(log, more, from, m, id);
    }
  }

  class Reconciler {
    const registry: map<string, MemoryDevice>
    const retries: nat
    const batchSize: nat
    ghost const plans: string -> seq<Route>
    ghost const journal: Journal

    var committed: Option<Plan>
    var pending: set<string>

    /** Devices are registered under their own names and write to one journal. */
    ghost predicate Wired() {
      batchSize > 0 && forall n :: n in registry ==> registry[n].name == n && registry[n].journal == journal
    }

    ghost function Devices(): set<object> {
      set n | n in registry :: registry[n] as object
    }

    ghost function Now(): (v: Views)
      reads Devices()
      ensures v.Keys == registry.Keys
    {
      map n | n in registry :: registry[n].Now()
    }

    constructor (registry: map<string, MemoryDevice>, retries: nat, batchSize: nat, ghost plans: string -> seq<Route>,
                 ghost journal: Journal)
      ensures this.registry == registry && this.retries == retries && this.plans == plans && this.journal == journal
      ensures this.batchSize == if batchSize == 0 then 4 else batchSize
      ensures committed == None && pending == {}
    {
      this.registry, this.retries, this.plans, this.journal := registry, retries, plans, journal;
      this.batchSize := if batchSize == 0 then 4 else batchSize;
      committed, pending := None, {};
    }

    /** Prepare on one device, with retries. */
    method PrepareOn(n: string, plan: Plan, weather: Weather) returns (ok: bool)
      requires Wired() && n in registry
      modifies Devices()
      ensures ok ==> plan.id != ""
      ensures Now() == old(Now())[n := if ok then AfterPrepare(old(Now())[n], plan.id, Share(plan.routes, n))
                                    else old(Now())[n]]
      ensures !weather.Free? && plan.id != "" ==> ok
    {
      hide Share, AfterPrepare;
      var attempt := 0;
      ok := false;
      assert Now() == Now()[n := Now()[n]];
      while !ok && attempt <= retries
        invariant attempt <= retries + 1 && (ok ==> plan.id != "")
        invariant Now() == old(Now())[n := if ok then AfterPrepare(old(Now())[n], plan.id, Share(plan.routes, n))
                                        else old(Now())[n]]
        invariant !weather.Free? && plan.id != "" ==> ok || attempt == 0
        decreases retries + 1 - attempt, !ok
      {
        var healthy: bool, fault: Fault := *, *;
        if !weather.Free? {
          healthy, fault := true, NoFault;
        }
        ok := registry[n].Prepare(plan.id, Share(plan.routes, n), healthy, fault);
        attempt := attempt + 1;
      }
    }

    /** Commit on one device, with retries. */
    method CommitOn(n: string, id: string, weather: Weather) returns (ok: bool)
      requires Wired() && n in registry
      modifies Devices(), journal
      ensures old(journal.log) <= journal.log && OnlyCommits(journal.log, |old(journal.log)|, n, id, ok)
      ensures Now() == old(Now())[n := if ok then AfterCommit(old(Now())[n], id) else old(Now())[n]]
      ensures weather.Calm? && (id == old(Now())[n].applied || id in old(Now())[n].prepared) ==> ok
      ensures weather.Broken? ==> !ok
    {
      hide AfterCommit, OnlyCommits;
      var attempt := 0;
      ok := false;
      assert Now() == Now()[n := Now()[n]];
      while !ok && attempt <= retries
        invariant attempt <= retries + 1 && (ok ==> attempt > 0)
        invariant Now() == old(Now())[n := if ok then AfterCommit(old(Now())[n], id) else old(Now())[n]]
        invariant weather.Calm? && (id == old(Now())[n].applied || id in old(Now())[n].prepared) ==> ok || attempt == 0
        invariant weather.Broken? ==> !ok
        invariant old(journal.log) <= journal.log
        invariant if attempt == 0 then journal.log == old(journal.log)
                    else OnlyCommits(journal.log, |old(journal.log)|, n, id, ok)
        decreases retries + 1 - attempt, !ok
      {
        var healthy: bool, fault: Fault := *, *;
        if !weather.Free? {
          healthy, fault := weather.Calm?, NoFault;
        }
        ghost var log := journal.log;
        ok := registry[n].Commit(id, healthy, fault);
        CommitsMore(log, |old(journal.log)|, n, id, ok);
        attempt := attempt + 1;
      }
    }

    method RollbackOn(n: string, id: string)
      requires Wired() && n in registry
      modifies Devices()
      ensures Now() == old(Now())[n := Undone(old(Now())[n], id)]
    {
      hide Undone;
      registry[n].Rollback(id);
    }

    /** Read the state of one device, with retries. */
    method ReadOn(n: string, calm: bool) returns (state: Option<(seq<Route>, string)>)
      requires Wired() && n in registry
      modifies journal
      ensures Now() == old(Now()) && old(journal.log) <= journal.log && OnlyReads(journal.log, |old(journal.log)|)
      ensures calm ==> state.Some?
      ensures state.Some? ==> state.value == (Now()[n].routes, Now()[n].applied) && |old(journal.log)| < |journal.log|
      ensures state.Some? ==> journal.log[|journal.log| - 1] == Reads(n, state.value.0, state.value.1)
    {
      state := None;
      var attempt := 0;
      while state.None? && attempt <= retries
        invariant state.Some? ==> state.value == (registry[n].routes, registry[n].applied)
        invariant calm ==> state.Some? || attempt == 0
        invariant attempt <= retries + 1
        invariant Now() == old(Now()) && old(journal.log) <= journal.log && OnlyReads(journal.log, |old(journal.log)|)
        invariant state.Some? ==> |old(journal.log)| < |journal.log|
        invariant state.Some? ==> journal.log[|journal.log| - 1] == Reads(n, state.value.0, state.value.1)
        decreases retries + 1 - attempt, state.None?
      {
        var fault: Fault := *;
        if calm {
          fault := NoFault;
        }
        state := registry[n].State(fault);
        attempt := attempt + 1;
      }
    }

    /** Ask one device for its health, with retries. */
    method HealthOn(n: string, calm: bool) returns (ok: bool)
      requires Wired() && n in registry
      ensures calm ==> ok
    {
      ok := false;
      var attempt := 0;
      while !ok && attempt <= retries
        invariant calm ==> ok || attempt == 0
        invariant attempt <= retries + 1
        decreases retries + 1 - attempt, !ok
      {
        var healthy: bool, fault: Fault := *, *;
        if calm {
          healthy, fault := true, NoFault;
        }
        ok := registry[n].Health(healthy, fault);
        attempt := attempt + 1;
      }
    }

    /** Look at every participant before anything is prepared. */
    method Precheck(names: seq<string>, weather: Weather) returns (up: seq<bool>)
      requires Wired()
      modifies journal
      ensures Now() == old(Now()) && old(journal.log) <= journal.log && OnlyReads(journal.log, |old(journal.log)|)
      ensures |up| == |names| && (!weather.Free? ==> forall i :: 0 <= i < |names| && names[i] in registry ==> up[i])
    {
      up := [];
      for i := 0 to |names|
        invariant Now() == old(Now()) && old(journal.log) <= journal.log && OnlyReads(journal.log, |old(journal.log)|)
        invariant |up| == i && (!weather.Free? ==> forall k :: 0 <= k < i && names[k] in registry ==> up[k])
      {
        if names[i] !in registry {
          up := up + [false];
          continue;
        }
        var healthy := HealthOn(names[i], !weather.Free?);
        if healthy {
          var state := ReadOn(names[i], !weather.Free?);
          healthy := *;
          healthy := state.Some? && (healthy || !weather.Free?);
        }
        up := up + [healthy];
      }
    }

    /** Read one device back and compare it with its share. */
    method Holding(n: string, plan: Plan, weather: Weather) returns (ok: bool)
      requires Wired()
      modifies journal
      ensures Now() == old(Now()) && old(journal.log) <= journal.log && OnlyReads(journal.log, |old(journal.log)|)
      ensures ok ==> Holds(Now(), plan, {n}) && Seen(journal.log, |old(journal.log)|, n, plan)
      ensures weather.Calm? && Holds(Now(), plan, {n}) ==> ok
      ensures weather.Broken? ==> !ok
    {
      hide Share, SortRoutes;
      if n !in registry {
        return false;
      }
      var state := ReadOn(n, weather.Calm?);
      var healthy: bool := *;
      if !weather.Free? {
        healthy := weather.Calm?;
      }
      ok := state.Some? && healthy && state.value.1 == plan.id
        && SortRoutes(state.value.0) == SortRoutes(Share(plan.routes, n));
      if ok {
        assert Shows(journal.log[|journal.log| - 1], n, plan);
      }
    }

    /** Read several devices back. */
    method Verify(names: seq<string>, plan: Plan, weather: Weather) returns (ok: bool)
      requires Wired()
      modifies journal
      ensures Now() == old(Now()) && old(journal.log) <= journal.log && OnlyReads(journal.log, |old(journal.log)|)
      ensures ok ==>
                && Holds(Now(), plan, SetOf(names))
                && forall n :: n in names ==> Seen(journal.log, |old(journal.log)|, n, plan)
      ensures weather.Calm? && Holds(Now(), plan, SetOf(names)) ==> ok
      ensures weather.Broken? && names != [] ==> !ok
    {
      hide Share, SortRoutes, Seen, Holds, OnlyReads;
      ok := true;
      ghost var from := |journal.log|;
      NothingRead(Now(), plan, journal.log);
      for i := 0 to |names|
        invariant Now() == old(Now()) && old(journal.log) <= journal.log && OnlyReads(journal.log, from)
        invariant ok ==>
                    && Holds(Now(), plan, SetOf(names[..i]))
                    && forall k :: 0 <= k < i ==> Seen(journal.log, from, names[k], plan)
        invariant weather.Calm? && Holds(Now(), plan, SetOf(names)) ==> ok
        invariant weather.Broken? && i > 0 ==> !ok
      {
        ghost var log := journal.log;
        if Holds(Now(), plan, SetOf(names)) {
          HoldsOne(Now(), plan, names, i);
        }
        var one := Holding(names[i], plan, weather);
        MoreRead(log, journal.log, from, plan, names, i, ok, one);
        if ok && one {
          HoldsMore(Now(), plan, names, i);
        }
        ok := ok && one;
      }
      assert names[..|names|] == names;
    }

    lemma NothingRead(now: Views, plan: Plan, log: seq<Entry>)
      ensures Holds(now, plan, SetOf([])) && OnlyReads(log, |log|)
    {
    }

    lemma HoldsOne(now: Views, plan: Plan, names: seq<string>, i: nat)
      requires i < |names| && Holds(now, plan, SetOf(names))
      ensures Holds(now, plan, {names[i]})
    {
      hide Share, SortRoutes;
    }

    lemma HoldsMore(now: Views, plan: Plan, names: seq<string>, i: nat)
      requires i < |names| && Holds(now, plan, SetOf(names[..i])) && Holds(now, plan, {names[i]})
      ensures Holds(now, plan, SetOf(names[..i + 1]))
    {
      hide Share, SortRoutes;
      assert names[..i + 1] == names[..i] + [names[i]];
    }

    lemma MoreRead(log: seq<Entry>, more: seq<Entry>, from: nat, plan: Plan, names: seq<string>, i: nat, ok: bool,
                   one: bool)
      requires from <= |log| && log <= more && OnlyReads(log, from) && OnlyReads(more, |log|) && i < |names|
      requires ok ==> forall k :: 0 <= k < i ==> Seen(log, from, names[k], plan)
      requires one ==> Seen(more, |log|, names[i], plan)
      ensures OnlyReads(more, from)
      ensures ok && one ==> forall k :: 0 <= k <= i ==> Seen(more, from, names[k], plan)
    {
      hide Shows;
      assert forall p :: 0 <= p < |log| ==> more[p] == log[p];
      if ok && one {
        forall k | 0 <= k < i ensures Seen(more, from, names[k], plan) {
          SeenLater(log, more, from, names[k], plan);
        }
      }
    }

    /** The first `i` participants are split into those taking part and those left for later. */
    ghost predicate Split(plan: Plan, names: seq<string>, i: nat, active: seq<string>, deferred: seq<string>) {
      && i <= |names|
      && (forall a, b :: 0 <= a < b < |active| ==> active[a] != active[b])
      && (forall n :: n in active ==> n in registry && n in names[..i] && n !in deferred)
      && (forall n :: n in deferred ==> n in names[..i] && n in registry && Share(plan.routes, n) == [])
      && (forall n :: n in names[..i] ==> n in active || n in deferred)
    }

    lemma SplitActive(plan: Plan, names: seq<string>, i: nat, active: seq<string>, deferred: seq<string>)
      requires Split(plan, names, i, active, deferred) && i < |names| && names[i] in registry
      requires forall a, b :: 0 <= a < b < |names| ==> names[a] != names[b]
      ensures Split(plan, names, i + 1, active + [names[i]], deferred) && names[i] !in active
      ensures SetOf(active + [names[i]]) == SetOf(active) + {names[i]}
    {
      hide Share;
      assert names[..i + 1] == names[..i] + [names[i]];
      assert names[i] !in names[..i];
    }

    lemma SplitOrdered(plan: Plan, names: seq<string>, i: nat, active: seq<string>, deferred: seq<string>)
      requires Split(plan, names, i, active, deferred) && i < |names| && Ordered(names, Less) && Ordered(active, Less)
      ensures Ordered(active + [names[i]], Less)
    {
      hide Share, Less;
      forall k | 0 <= k < |active| ensures Less(active[k], names[i]) {
        assert active[k] in names[..i];
      }
    }

    lemma SplitDeferred(plan: Plan, names: seq<string>, i: nat, active: seq<string>, deferred: seq<string>)
      requires Split(plan, names, i, active, deferred) && i < |names| && names[i] in registry
               && Share(plan.routes, names[i]) == []
      requires forall a, b :: 0 <= a < b < |names| ==> names[a] != names[b]
      ensures Split(plan, names, i + 1, active, deferred + [names[i]])
    {
      hide Share;
      assert names[..i + 1] == names[..i] + [names[i]];
      assert names[i] !in names[..i];
    }

    lemma SplitActiveFacts(plan: Plan, names: seq<string>, i: nat, active: seq<string>, deferred: seq<string>)
      requires Split(plan, names, i, active, deferred)
      ensures forall a, b :: 0 <= a < b < |active| ==> active[a] != active[b]
      ensures forall n :: n in active ==> n in registry && n in names && n !in deferred
      ensures forall n :: n in deferred ==> n in registry && n in names && Share(plan.routes, n) == []
      ensures i == |names| ==> forall n :: n in names ==> n in active || n in deferred
    {
      hide Share;
    }

    /** The device and all participants before it are registered. */
    ghost predicate Attainable(names: set<string>, n: string) {
      n in names && forall m :: m in names && (m == n || Less(m, n)) ==> m in registry
    }

    lemma SplitAttainable(plan: Plan, names: seq<string>, i: nat, active: seq<string>, deferred: seq<string>)
      requires Split(plan, names, i, active, deferred) && Ordered(names, Less)
      ensures forall n :: n in active ==> Attainable(SetOf(names), n)
    {
      hide Share, Less;
      LessLinear();
      forall n, m | n in active && m in names && (m == n || Less(m, n)) ensures m in registry {
        var a :| 0 <= a < i && names[a] == n;
        var b :| 0 <= b < |names| && names[b] == m;
        assert Less(n, m) ==> Less(n, n);
        assert b <= a;
        assert m == names[..i][b];
      }
    }

    /** Nobody was left for later, and nothing but an unknown name has stopped the preparation. */
    lemma AllAttained(plan: Plan, names: seq<string>, i: nat, active: seq<string>)
      requires Split(plan, names, i, active, []) && Ordered(names, Less) && (i == |names| || names[i] !in registry)
      ensures forall n :: Attainable(SetOf(names), n) ==> n in active
    {
      hide Share, Less;
      LessLinear();
      if i < |names| {
        assert names[i] in names;
        assert forall b :: i <= b < |names| ==> names[i] == names[b] || Less(names[i], names[b]);
      }
      forall n | Attainable(SetOf(names), n) ensures n in active {
        var a :| 0 <= a < |names| && names[a] == n;
        assert a < i;
        assert n == names[..i][a];
      }
    }

    /** Prepare every participant. An unreachable device with nothing to install is left for later; any other
        failure ends the call. */
    method PrepareAll(plan: Plan, names: seq<string>, up: seq<bool>, weather: Weather)
      returns (ok: bool, active: seq<string>, deferred: seq<string>)
      requires Wired() && Idle(Now()) && Ordered(names, Less)
               && forall i, j :: 0 <= i < j < |names| ==> names[i] != names[j]
      requires |up| == |names| && (!weather.Free? ==> forall i :: 0 <= i < |names| && names[i] in registry ==> up[i])
      modifies Devices()
      ensures Staged(old(Now()), Now(), plan, SetOf(active)) && Ordered(active, Less)
      ensures SameApplied(old(Now()), Now())
      ensures ok ==> Split(plan, names, |names|, active, deferred)
      ensures exists i :: Split(plan, names, i, active, deferred)
      ensures active != [] ==> plan.id != ""
      ensures !weather.Free? && plan.id != "" && (forall n :: n in names ==> n in registry) ==> ok && deferred == []
      ensures !weather.Free? && plan.id != "" ==> forall n :: Attainable(SetOf(names), n) ==> n in active
    {
      hide Staged, Idle, Share, Split, SetOf, Less, Ordered, AfterPrepare, SameApplied, Attainable, Wired, Now;
      ok, active, deferred := true, [], [];
      NobodyStaged(Now(), plan);
      SplitNone(plan, names);
      for i := 0 to |names|
        invariant Staged(old(Now()), Now(), plan, SetOf(active)) && Split(plan, names, i, active, deferred)
        invariant (!weather.Free? ==> deferred == []) && (active != [] ==> plan.id != "")
        invariant Ordered(active, Less) && SameApplied(old(Now()), Now())
      {
        var n := names[i];
        if n !in registry {
          if !weather.Free? {
            AllAttained(plan, names, i, active);
          }
          return false, active, deferred;
        }
        if !up[i] && Share(plan.routes, n) == [] {
          SplitDeferred(plan, names, i, active, deferred);
          deferred := deferred + [n];
          continue;
        }
        if !up[i] {
          return false, active, deferred;
        }
        ghost var now := Now();
        var prepared := PrepareOn(n, plan, weather);
        if !prepared {
          assert Now() == now;
          return false, active, deferred;
        }
        OneMore(old(Now()), now, plan, names, i, active, deferred);
        active := active + [n];
      }
      if !weather.Free? {
        AllAttained(plan, names, |names|, active);
      }
    }

    /** Another participant has been prepared. */
    lemma OneMore(before: Views, now: Views, plan: Plan, names: seq<string>, i: nat, active: seq<string>,
                  deferred: seq<string>)
      requires Staged(before, now, plan, SetOf(active)) && Idle(before) && SameApplied(before, now)
      requires Split(plan, names, i, active, deferred) && i < |names| && names[i] in registry && names[i] in before
      requires Ordered(names, Less) && Ordered(active, Less)
      requires forall a, b :: 0 <= a < b < |names| ==> names[a] != names[b]
      ensures names[i] in now
      ensures var after := now[names[i] := AfterPrepare(now[names[i]], plan.id, Share(plan.routes, names[i]))];
              && Staged(before, after, plan, SetOf(active + [names[i]])) && SameApplied(before, after)
              && Split(plan, names, i + 1, active + [names[i]], deferred) && Ordered(active + [names[i]], Less)
    {
      hide Staged, Idle, Share, Split, SetOf, Less, Ordered, AfterPrepare;
      var n := names[i];
      SplitActive(plan, names, i, active, deferred);
      SplitOrdered(plan, names, i, active, deferred);
      PreparedSame(before, now, plan, n);
      StagePrepared(before, now, plan, SetOf(active), n, AfterPrepare(now[n], plan.id, Share(plan.routes, n)));
    }

    lemma SplitNone(plan: Plan, names: seq<string>)
      ensures Split(plan, names, 0, [], []) && Ordered<string>([], Less)
      ensures forall views :: SameApplied(views, views)
    {
    }

    lemma PreparedSame(before: Views, now: Views, plan: Plan, n: string)
      requires SameApplied(before, now) && n in now
      ensures SameApplied(before, now[n := AfterPrepare(now[n], plan.id, Share(plan.routes, n))])
    {
      hide Share;
    }

    /** Roll every prepared device back, the last one first. */
    method Fail(plan: Plan, active: seq<string>, ghost before: Views)
      requires Wired() && Idle(before) && before.Keys == registry.Keys
      requires Staged(before, Now(), plan, SetOf(active))
      requires forall n :: n in active ==> n in registry
      requires forall i, j :: 0 <= i < j < |active| ==> active[i] != active[j]
      modifies Devices()
      ensures Undoing(before, Now(), plan, SetOf(active), SetOf(active))
    {
      hide Staged, Idle, Undoing, Undone;
      StagedIsUndoing(before, Now(), plan, SetOf(active));
      assert SetOf(active[|active|..]) == {};
      var i := |active|;
      while i > 0
        invariant 0 <= i <= |active|
        invariant Undoing(before, Now(), plan, SetOf(active), SetOf(active[i..]))
      {
        i := i - 1;
        ghost var now := Now();
        StageUndone(before, now, plan, SetOf(active), SetOf(active[i + 1..]), active[i]);
        RollbackOn(active[i], plan.id);
        assert active[i..] == [active[i]] + active[i + 1..];
        assert SetOf(active[i..]) == SetOf(active[i + 1..]) + {active[i]};
      }
      assert active[0..] == active;
    }

    /** Commit one participant. */
    method CommitOne(plan: Plan, n: string, weather: Weather, ghost active: set<string>, ghost done: set<string>,
                     ghost before: Views)
      returns (ok: bool)
      requires Wired() && Idle(before) && before.Keys == registry.Keys && n in registry && n in active
      requires Staged(before, Now(), plan, active)
      modifies Devices(), journal
      ensures Staged(before, Now(), plan, active)
      ensures ok && Reached(before, old(Now()), plan, done) ==> Reached(before, Now(), plan, done + {n})
      ensures (weather.Calm? ==> ok) && (weather.Broken? ==> !ok)
      ensures old(journal.log) <= journal.log && OnlyCommits(journal.log, |old(journal.log)|, n, plan.id, ok)
      ensures n in Now() && Now() == old(Now())[n := Now()[n]] && (Now()[n] == old(Now())[n] || ok)
    {
      hide Staged, Idle, Reached, Share, SortRoutes, Switched, OnlyCommits, AfterCommit;
      ghost var now := Now();
      StageCommitted(before, now, plan, active, n);
      ok := CommitOn(n, plan.id, weather);
      if !ok {
        assert Now() == now;
      }
      if ok && Reached(before, now, plan, done) {
        ReachedGrows(before, now, Now(), plan, done, n, active);
      }
    }

    /** The gates of a batch that begins at `start` are open. */
    ghost predicate Open(log: seq<Entry>, from: nat, active: seq<string>, start: nat, plan: Plan) {
      && batchSize > 0 && from <= |log| && start <= |active| && Gated(log, from, active, batchSize, plan)
      && forall b :: 0 <= b < start ==> Checked(log, from, |log|, active[b], plan)
    }

    /** The participants from `start` to `i` have been asked to commit. */
    ghost predicate Asked(log: seq<Entry>, from: nat, active: seq<string>, start: nat, i: nat, plan: Plan, ok: bool) {
      && i <= |active|
      && (forall k :: start <= k < i ==> Attempted(log, from, active[k], plan.id))
      && (ok ==> forall k :: start <= k < i ==> Logged(log, from, |log|, active[k], plan.id))
    }

    lemma OpenCommits(log: seq<Entry>, more: seq<Entry>, from: nat, active: seq<string>, start: nat, plan: Plan, i: nat,
                      ok: bool)
      requires Open(log, from, active, start, plan) && log <= more && i < |active|
      requires Begins(start, batchSize) && start <= i < start + batchSize
      requires OnlyCommits(more, |log|, active[i], plan.id, ok)
      ensures Open(more, from, active, start, plan)
    {
      hide Checked, OnlyCommits, Gated, Batch, Begins;
      BatchOf(start, batchSize, i);
      GatedCommits(log, more, from, active, batchSize, plan, i, ok);
      forall b | 0 <= b < start ensures Checked(more, from, |more|, active[b], plan) {
        CheckedLater(log, more, from, |log|, |more|, active[b], plan);
      }
    }

    lemma AskedMore(log: seq<Entry>, more: seq<Entry>, from: nat, active: seq<string>, start: nat, i: nat, plan: Plan,
                    ok: bool, one: bool)
      requires Asked(log, from, active, start, i, plan, ok) && log <= more && i < |active| && from <= |log|
      requires Attempted(more, |log|, active[i], plan.id) && (one ==> Logged(more, from, |more|, active[i], plan.id))
      ensures Asked(more, from, active, start, i + 1, plan, ok && one)
    {
      hide Logged;
      forall k | start <= k < i ensures Attempted(more, from, active[k], plan.id) {
        AttemptedLater(log, more, from, active[k], plan.id);
      }
      if ok && one {
        forall k | start <= k < i ensures Logged(more, from, |more|, active[k], plan.id) {
          LoggedLater(log, more, from, active[k], plan.id);
        }
      }
    }

    /** Commit one canary batch. All commits of the batch are carried out, also next to a failed one. */
    method CommitBatch(plan: Plan, active: seq<string>, start: nat, end: nat, weather: Weather, ghost before: Views,
                       ghost from: nat, ghost was: Views)
      returns (ok: bool)
      requires Wired() && Idle(before) && before.Keys == registry.Keys
      requires Begins(start, batchSize) && start <= end <= |active| && end <= start + batchSize
      requires Staged(before, Now(), plan, SetOf(active)) && forall n :: n in active ==> n in registry
      requires Reached(before, Now(), plan, SetOf(active[..start]))
      requires Open(journal.log, from, active, start, plan) && Accounted(was, Now(), journal.log, from, plan.id)
      modifies Devices(), journal
      ensures Staged(before, Now(), plan, SetOf(active))
      ensures ok ==> Reached(before, Now(), plan, SetOf(active[..end]))
      ensures old(journal.log) <= journal.log && Open(journal.log, from, active, start, plan)
      ensures Accounted(was, Now(), journal.log, from, plan.id)
              && Asked(journal.log, from, active, start, end, plan, ok)
      ensures (weather.Calm? ==> ok) && (weather.Broken? && start < end ==> !ok)
    {
      hide Staged, Idle, Reached, Share, SortRoutes, Switched, Open, Accounted, Asked, Attempted, Logged, OnlyCommits,
           Now;
      ok := true;
      NobodyAsked(journal.log, from, active, start, plan);
      for i := start to end
        invariant Staged(before, Now(), plan, SetOf(active))
        invariant ok ==> Reached(before, Now(), plan, SetOf(active[..i]))
        invariant old(journal.log) <= journal.log && Open(journal.log, from, active, start, plan)
        invariant Accounted(was, Now(), journal.log, from, plan.id)
                  && Asked(journal.log, from, active, start, i, plan, ok)
        invariant (weather.Calm? ==> ok) && (weather.Broken? && start < i ==> !ok)
      {
        var n := active[i];
        assert active[..i + 1] == active[..i] + [n];
        assert SetOf(active[..i + 1]) == SetOf(active[..i]) + {n};
        ghost var log, now := journal.log, Now();
        OpenFrom(log, from, active, start, plan);
        var one := CommitOne(plan, n, weather, SetOf(active), SetOf(active[..i]), before);
        OpenCommits(log, journal.log, from, active, start, plan, i, one);
        AccountedGrows(was, now, Now(), log, journal.log, from, n, plan.id, one);
        AskedMore(log, journal.log, from, active, start, i, plan, ok, one);
        ok := ok && one;
      }
    }

    lemma NobodyAsked(log: seq<Entry>, from: nat, active: seq<string>, start: nat, plan: Plan)
      requires start <= |active|
      ensures Asked(log, from, active, start, start, plan, true)
    {
    }

    lemma OpenFrom(log: seq<Entry>, from: nat, active: seq<string>, start: nat, plan: Plan)
      requires Open(log, from, active, start, plan)
      ensures from <= |log| && Gated(log, from, active, batchSize, plan)
    {
    }

    /** A batch that was committed and read back opens the gate of the next. */
    lemma OpenNext(log: seq<Entry>, more: seq<Entry>, from: nat, active: seq<string>, start: nat, end: nat, plan: Plan)
      requires Open(log, from, active, start, plan) && log <= more && start <= end <= |active|
      requires Asked(log, from, active, start, end, plan, true) && OnlyReads(more, |log|)
      requires forall n :: n in active[start..end] ==> Seen(more, |log|, n, plan)
      ensures Open(more, from, active, end, plan)
    {
      hide Checked, Gated, OnlyReads, Logged, Seen, Attempted;
      GatedReads(log, more, from, active, batchSize, plan);
      forall b | 0 <= b < end ensures Checked(more, from, |more|, active[b], plan) {
        if b < start {
          CheckedLater(log, more, from, |log|, |more|, active[b], plan);
        } else {
          assert active[start..end][b - start] == active[b];
          CheckedNow(log, more, from, active[b], plan);
        }
      }
    }

    /** Commit the next batch and read it back. */
    method CommitNext(plan: Plan, active: seq<string>, start: nat, weather: Weather, ghost before: Views,
                      ghost from: nat, ghost was: Views)
      returns (ok: bool, end: nat)
      requires Wired() && Idle(before) && before.Keys == registry.Keys
      requires Begins(start, batchSize) && start < |active|
      requires Staged(before, Now(), plan, SetOf(active)) && forall n :: n in active ==> n in registry
      requires Reached(before, Now(), plan, SetOf(active[..start]))
      requires Open(journal.log, from, active, start, plan) && Accounted(was, Now(), journal.log, from, plan.id)
      modifies Devices(), journal
      ensures start < end <= |active| && (end < |active| ==> Begins(end, batchSize))
      ensures Staged(before, Now(), plan, SetOf(active)) && (ok ==> Reached(before, Now(), plan, SetOf(active[..end])))
      ensures old(journal.log) <= journal.log && Open(journal.log, from, active, if ok then end else start, plan)
      ensures Accounted(was, Now(), journal.log, from, plan.id)
      ensures weather.Calm? && AllConsistent(plans, before) && plan.routes == plans(plan.id) ==> ok
      ensures weather.Broken? ==> !ok
    {
      hide Staged, Idle, Reached, Gated, Share, Holds, AllConsistent, Open, Accounted, Asked, Checked, OnlyReads, Seen,
           SortRoutes, Batch, Now;
      end := if start + batchSize < |active| then start + batchSize else |active|;
      var valid: bool := *;
      if !weather.Calm? && !valid {
        return false, end;
      }
      ok := CommitBatch(plan, active, start, end, weather, before, from, was);
      if !ok {
        return;
      }
      if AllConsistent(plans, before) && plan.routes == plans(plan.id) {
        ReachedHolds(plans, before, Now(), plan, SetOf(active[..end]));
        HoldsFewer(Now(), plan, SetOf(active[..end]), SetOf(active[start..end]));
      }
      ghost var log := journal.log;
      ok := Verify(active[start..end], plan, weather);
      AccountedLater(was, Now(), log, journal.log, from, plan.id);
      OpenReads(log, journal.log, from, active, start, plan);
      if ok {
        OpenNext(log, journal.log, from, active, start, end, plan);
      }
    }

    lemma OpenReads(log: seq<Entry>, more: seq<Entry>, from: nat, active: seq<string>, start: nat, plan: Plan)
      requires Open(log, from, active, start, plan) && log <= more && OnlyReads(more, |log|)
      ensures Open(more, from, active, start, plan)
    {
      hide Checked, Gated, OnlyReads;
      GatedReads(log, more, from, active, batchSize, plan);
      forall b | 0 <= b < start ensures Checked(more, from, |more|, active[b], plan) {
        CheckedLater(log, more, from, |log|, |more|, active[b], plan);
      }
    }

    /** Commit in canary batches; each batch is read back before the next one starts. */
    method CommitAll(plan: Plan, active: seq<string>, weather: Weather, ghost before: Views) returns (ok: bool)
      requires Wired() && Idle(before) && before.Keys == registry.Keys
      requires Staged(before, Now(), plan, SetOf(active)) && forall n :: n in active ==> n in registry
      modifies Devices(), journal
      ensures Staged(before, Now(), plan, SetOf(active))
      ensures ok ==> Reached(before, Now(), plan, SetOf(active))
      ensures old(journal.log) <= journal.log && Gated(journal.log, |old(journal.log)|, active, batchSize, plan)
      ensures Accounted(old(Now()), Now(), journal.log, |old(journal.log)|, plan.id)
      ensures ok ==> forall n :: n in active ==> Checked(journal.log, |old(journal.log)|, |journal.log|, n, plan)
      ensures weather.Calm? && AllConsistent(plans, before) && plan.routes == plans(plan.id) ==> ok
      ensures weather.Broken? && active != [] ==> !ok
    {
      hide Staged, Idle, Reached, Gated, AllConsistent, Open, Accounted, Checked, Now;
      ghost var from, was := |journal.log|, Now();
      NothingYet(before, Now(), plan, active, journal.log);
      var start := 0;
      while start < |active|
        invariant 0 <= start <= |active| && (start < |active| ==> Begins(start, batchSize))
        invariant Staged(before, Now(), plan, SetOf(active)) && Reached(before, Now(), plan, SetOf(active[..start]))
        invariant old(journal.log) <= journal.log && Open(journal.log, from, active, start, plan)
        invariant Accounted(was, Now(), journal.log, from, plan.id) && (weather.Broken? ==> start == 0)
      {
        var end;
        ok, end := CommitNext(plan, active, start, weather, before, from, was);
        if !ok {
          OpenFrom(journal.log, from, active, start, plan);
          return false;
        }
        start := end;
      }
      assert active[..|active|] == active;
      OpenFrom(journal.log, from, active, start, plan);
      AllChecked(journal.log, from, active, plan);
      ok := true;
    }

    lemma AllChecked(log: seq<Entry>, from: nat, active: seq<string>, plan: Plan)
      requires Open(log, from, active, |active|, plan)
      ensures forall n :: n in active ==> Checked(log, from, |log|, n, plan)
    {
      hide Checked, Gated;
    }

    lemma NothingYet(before: Views, now: Views, plan: Plan, active: seq<string>, log: seq<Entry>)
      requires batchSize > 0
      ensures Reached(before, now, plan, SetOf(active[..0])) && Open(log, |log|, active, 0, plan)
      ensures Gated(log, |log|, active, batchSize, plan) && Accounted(now, now, log, |log|, plan.id)
              && OnlyReads(log, |log|)
    {
    }

    lemma HoldsFewer(now: Views, plan: Plan, more: set<string>, fewer: set<string>)
      requires Holds(now, plan, more) && fewer <= more
      ensures Holds(now, plan, fewer)
    {
    }

    /** All devices with something to install or to remove. */
    ghost function Participants(plan: Plan, committed: Option<Plan>, pending: set<string>): set<string> {
      DevicesOf(plan.routes) + DevicesOfPlan(committed) + pending
    }

    /** Everything a call leaves behind on success. */
    ghost predicate Succeeded(before: Views, after: Views, plan: Plan, wasCommitted: Option<Plan>,
                              wasPending: set<string>, isCommitted: Option<Plan>, isPending: set<string>)
    {
      var names := Participants(plan, wasCommitted, wasPending);
      || (&& after == before && isCommitted == wasCommitted && isPending == wasPending     // nothing to do
          && wasCommitted.Some? && wasCommitted.value.id == plan.id && Holds(after, plan, names))
      || (&& isCommitted == Some(plan) && Delivered(before, after, plan, names, isPending)
          && Holds(after, plan, names - isPending)
          && forall n :: n in isPending ==> Share(plan.routes, n) == [])
    }

    /** Everything a call leaves behind on failure. A device in `active` that had applied the plan before is
        stepped back from it. */
    ghost predicate Failed(before: Views, after: Views, plan: Plan, active: set<string>) {
      && after.Keys == before.Keys
      && forall n :: n in before ==>
           && (n !in active ==> after[n] == before[n])
           && (n in active && before[n].applied == plan.id ==> after[n] == Undone(before[n], plan.id))
           && (before[n].applied != plan.id ==>
                 after[n].routes == before[n].routes && after[n].applied == before[n].applied)
    }

    /** The step back from a plan leads to the same routes and the same plan. */
    ghost predicate StepsNowhere(v: View, id: string) {
      id in v.history ==> v.history[id].previous == v.routes && v.history[id].previousId == id
    }

    /** A failed call leaves every device as it was exactly if the step back from the plan leads nowhere on the
        participants that had applied it before. */
    lemma FailureIsAtomicIff(before: Views, after: Views, plan: Plan, active: set<string>)
      requires Idle(before) && Failed(before, after, plan, active)
      ensures (forall n :: n in before ==>
                   after[n].routes == before[n].routes && after[n].applied == before[n].applied) <==>
              forall n :: n in before && n in active && before[n].applied == plan.id ==>
                    StepsNowhere(before[n], plan.id)
    {
      hide Undone;
      forall n | n in before && n in active && before[n].applied == plan.id
        ensures StepsNowhere(before[n], plan.id) <==>
                  after[n].routes == before[n].routes && after[n].applied == before[n].applied
      {
        UndoAlreadyApplied(before[n], plan.id);
      }
    }

    /** The participants that a call may get to: none of a plan that is refused outright, else those up to the first
        one that nobody has registered. */
    ghost function AtRisk(plan: Plan, committed: Option<Plan>, pending: set<string>): (r: set<string>)
      ensures r <= Participants(plan, committed, pending)
    {
      var names := Participants(plan, committed, pending);
      if plan.id == "" || "" in DevicesOf(plan.routes) then {} else set n | n in names && Attainable(names, n)
    }

    /** The step back from the plan leads nowhere on every device at risk that has applied it. */
    ghost predicate Harmless(plan: Plan, s: State) {
      forall n :: n in AtRisk(plan, s.committed, s.pending) && n in s.views && s.views[n].applied == plan.id ==>
        StepsNowhere(s.views[n], plan.id)
    }

    /** Every device has the routes and the plan it had. */
    ghost predicate AsBefore(before: Views, after: Views) {
      after.Keys == before.Keys
      && forall n :: n in before ==> after[n].routes == before[n].routes && after[n].applied == before[n].applied
    }

    /** If the steps back lead nowhere, every failed call leaves all devices as they were. If not, a failed call that
        got to all devices at risk does not. */
    lemma HarmlessIffAtomic(plan: Plan, active: seq<string>, s: State, t: State)
      requires Idle(s.views) && Promised(plan, false, active, s, t)
      ensures Harmless(plan, s) ==> AsBefore(s.views, t.views)
      ensures SetOf(active) == AtRisk(plan, s.committed, s.pending) && AsBefore(s.views, t.views) ==> Harmless(plan, s)
    {
      hide Idle, Gated, Visible, Tracked, Less, Ordered, AtRisk, StepsNowhere, Succeeded;
      FailureIsAtomicIff(s.views, t.views, plan, SetOf(active));
    }

    ghost predicate Tracked(views: Views, committed: Option<Plan>, pending: set<string>) {
      AllConsistent(plans, views) && Covered(views, committed, pending)
    }

    lemma AfterFailure(before: Views, after: Views, plan: Plan, active: set<string>, was: Option<Plan>,
                       waiting: set<string>)
      requires Idle(before) && Undoing(before, after, plan, active, active)
      requires active <= Participants(plan, was, waiting)
      ensures Idle(after) && Failed(before, after, plan, active)
      ensures plan.routes == plans(plan.id) && Tracked(before, was, waiting) ==> Tracked(after, was, waiting)
    {
      hide Share, DevicesOf, DevicesOfPlan, Consistent, Undone;
      if plan.routes == plans(plan.id) && Tracked(before, was, waiting) {
        FailureKeepsTrack(plans, before, after, plan, active, was, waiting);
      }
    }

    lemma NothingHappened(before: Views, plan: Plan)
      ensures Failed(before, before, plan, SetOf([]))
    {
    }

    lemma AfterSuccess(before: Views, after: Views, plan: Plan, names: seq<string>, active: seq<string>,
                       deferred: seq<string>, was: Option<Plan>, waiting: set<string>)
      requires Idle(before) && before.Keys == registry.Keys && Staged(before, after, plan, SetOf(active))
      requires SetOf(names) == Participants(plan, was, waiting) && Split(plan, names, |names|, active, deferred)
      requires Holds(after, plan, SetOf(active))
      ensures Idle(after) && Succeeded(before, after, plan, was, waiting, Some(plan), SetOf(deferred))
      ensures plan.routes == plans(plan.id) && Tracked(before, was, waiting) ==>
                Tracked(after, Some(plan), SetOf(deferred))
    {
      hide Share, DevicesOf, DevicesOfPlan, Consistent, Staged, Split, Holds, Delivered;
      SplitActiveFacts(plan, names, |names|, active, deferred);
      var all := SetOf(names);
      assert all == SetOf(active) + SetOf(deferred);
      assert all - SetOf(deferred) == SetOf(active);
      StagedDelivered(before, after, plan, all, SetOf(active), SetOf(deferred));
      DeliveredIdle(before, after, plan, all, SetOf(deferred));
      if plan.routes == plans(plan.id) && Tracked(before, was, waiting) {
        SuccessKeepsTrack(plans, before, after, plan, all, SetOf(deferred), was, waiting);
      }
    }

    lemma DeliveredIdle(before: Views, after: Views, plan: Plan, names: set<string>, deferred: set<string>)
      requires Idle(before) && Delivered(before, after, plan, names, deferred)
      ensures Idle(after)
    {
      hide Share;
    }

    /** Roll back and report failure, leaving the committed plan and the pending devices alone. */
    method Abort(plan: Plan, active: seq<string>, ghost before: Views)
      requires Wired() && Idle(before) && before.Keys == registry.Keys
      requires Staged(before, Now(), plan, SetOf(active))
      requires SetOf(active) <= Participants(plan, committed, pending) && forall n :: n in active ==> n in registry
      requires forall i, j :: 0 <= i < j < |active| ==> active[i] != active[j]
      modifies Devices()
      ensures Idle(Now()) && Failed(before, Now(), plan, SetOf(active))
      ensures plan.routes == plans(plan.id) && Tracked(before, committed, pending) ==>
                Tracked(Now(), committed, pending)
    {
      hide Staged, Idle, Undoing, Failed, Tracked;
      Fail(plan, active, before);
      AfterFailure(before, Now(), plan, SetOf(active), committed, pending);
    }

    /** Make the plan the committed one, unless that cannot be persisted. */
    method Publish(plan: Plan, deferred: set<string>, weather: Weather) returns (persisted: bool)
      modifies this
      ensures Now() == old(Now())
      ensures persisted ==> committed == Some(plan) && pending == deferred
      ensures !persisted ==> committed == old(committed) && pending == old(pending)
      ensures weather.Calm? ==> persisted
    {
      var previousCommitted, previousPending := committed, pending;
      committed, pending := Some(plan), deferred;
      persisted := *;
      if weather.Calm? {
        persisted := true;
      }
      if !persisted {
        committed, pending := previousCommitted, previousPending;
      }
    }

    /** Whether a calm call has everything it needs. */
    ghost predicate Feasible(plan: Plan, views: Views, was: Option<Plan>, waiting: set<string>) {
      && plan.id != "" && "" !in DevicesOf(plan.routes) && Participants(plan, was, waiting) <= registry.Keys
      && plan.routes == plans(plan.id) && Tracked(views, was, waiting)
    }

    lemma FeasibleFacts(plan: Plan, views: Views, was: Option<Plan>, waiting: set<string>)
      requires Feasible(plan, views, was, waiting)
      ensures plan.id != "" && "" !in DevicesOf(plan.routes) && Participants(plan, was, waiting) <= registry.Keys
      ensures AllConsistent(plans, views) && plan.routes == plans(plan.id)
    {
    }

    /** Every device that a call switched to the plan committed it in the log. */
    ghost predicate Visible(before: Views, now: Views, log: seq<Entry>, from: nat, id: string) {
      forall n :: n in before && n in now && before[n].applied != id && now[n].applied == id ==>
            Logged(log, from, |log|, n, id)
    }

    lemma AccountedVisible(before: Views, was: Views, now: Views, log: seq<Entry>, from: nat, id: string)
      requires SameApplied(before, was) && Accounted(was, now, log, from, id)
      ensures Visible(before, now, log, from, id)
    {
      hide Logged;
    }

    lemma FailedVisible(before: Views, now: Views, log: seq<Entry>, from: nat, plan: Plan, active: set<string>)
      requires Failed(before, now, plan, active)
      ensures Visible(before, now, log, from, plan.id)
    {
      hide Logged;
    }

    lemma VisibleLater(before: Views, now: Views, log: seq<Entry>, more: seq<Entry>, from: nat, id: string)
      requires Visible(before, now, log, from, id) && log <= more
      ensures Visible(before, now, more, from, id)
    {
      hide Logged;
      forall n | n in before && n in now && before[n].applied != id && now[n].applied == id
        ensures Logged(more, from, |more|, n, id)
      {
        LoggedLater(log, more, from, n, id);
      }
    }

    lemma VisibleEarlier(before: Views, now: Views, log: seq<Entry>, from: nat, earlier: nat, id: string)
      requires Visible(before, now, log, from, id) && earlier <= from
      ensures Visible(before, now, log, earlier, id)
    {
    }

    lemma SameVisible(before: Views, log: seq<Entry>, from: nat, id: string)
      ensures Visible(before, before, log, from, id)
    {
    }

    /** The reconciler and its devices at one moment. */
    ghost function Books(): (s: State)
      reads this, Devices(), journal
      ensures s.views == Now() && s.committed == committed && s.pending == pending && s.log == journal.log
    {
      State(Now(), committed, pending, journal.log)
    }

    /** Either every participant that is not deferred ends up with exactly its share, or every device that had not
        applied this plan before is as it was, with the committed plan and the pending set unchanged. No prepared
        transaction survives. No commit is attempted before every participant of the earlier batches was read back and
        held its share. Every device switched to the plan committed it in the log. Every device with routes stays
        accounted for. */
    ghost predicate Promised(plan: Plan, ok: bool, active: seq<string>, s: State, t: State) {
      && batchSize > 0 && Idle(t.views)
      && (ok ==> Succeeded(s.views, t.views, plan, s.committed, s.pending, t.committed, t.pending))
      && (!ok ==> t.committed == s.committed && t.pending == s.pending && Failed(s.views, t.views, plan, SetOf(active)))
      && Ordered(active, Less) && SetOf(active) <= AtRisk(plan, s.committed, s.pending)
      && (ok && t.views != s.views ==> SetOf(active) == Participants(plan, s.committed, s.pending) - t.pending)
      && s.log <= t.log && Gated(t.log, |s.log|, active, batchSize, plan)
      && Visible(s.views, t.views, t.log, |s.log|, plan.id)
      && (plan.routes == plans(plan.id) && Tracked(s.views, s.committed, s.pending) ==>
            Tracked(t.views, t.committed, t.pending))
    }

    lemma PromisedAfterReads(plan: Plan, ok: bool, active: seq<string>, s: State, middle: State, t: State)
      requires Promised(plan, ok, active, middle, t) && middle == s.(log := middle.log)
      requires s.log <= middle.log && OnlyReads(middle.log, |s.log|)
      ensures Promised(plan, ok, active, s, t)
    {
      hide Idle, Succeeded, Failed, Ordered, Less, Gated, Visible, Tracked, Participants;
      ReadsBetween(s.log, middle.log, t.log);
      GatedEarlier(t.log, |middle.log|, |s.log|, active, batchSize, plan);
      VisibleEarlier(s.views, t.views, t.log, |middle.log|, |s.log|, plan.id);
    }

    lemma ReadsBetween(log: seq<Entry>, middle: seq<Entry>, more: seq<Entry>)
      requires log <= middle <= more && OnlyReads(middle, |log|)
      ensures forall p :: |log| <= p < |middle| ==> more[p].Reads?
    {
    }

    lemma PromisedFailure(plan: Plan, s: State, log: seq<Entry>)
      requires batchSize > 0 && Idle(s.views) && s.log <= log && OnlyReads(log, |s.log|)
      ensures Promised(plan, false, [], s, s.(log := log))
    {
      hide Idle, Tracked, Less;
      NothingHappened(s.views, plan);
      SameVisible(s.views, log, |s.log|, plan.id);
    }

    lemma PromisedNoOp(plan: Plan, s: State, log: seq<Entry>)
      requires batchSize > 0 && Idle(s.views) && s.log <= log && OnlyReads(log, |s.log|)
      requires s.committed.Some? && s.committed.value.id == plan.id
               && Holds(s.views, plan, Participants(plan, s.committed, s.pending))
      ensures Promised(plan, true, [], s, s.(log := log))
    {
      hide Idle, Tracked, Less, Holds, Participants;
      NoOp(s.views, plan, s.committed, s.pending);
      SameVisible(s.views, log, |s.log|, plan.id);
    }

    /** The first phase. */
    method Stage(plan: Plan, names: seq<string>, up: seq<bool>, weather: Weather)
      returns (ok: bool, active: seq<string>, deferred: seq<string>)
      requires Wired() && Idle(Now()) && Ordered(names, Less) && "" !in DevicesOf(plan.routes)
      requires |up| == |names| && (!weather.Free? ==> forall i :: 0 <= i < |names| && names[i] in registry ==> up[i])
      requires SetOf(names) == Participants(plan, committed, pending)
               && forall i, j :: 0 <= i < j < |names| ==> names[i] != names[j]
      modifies Devices()
      ensures Staged(old(Now()), Now(), plan, SetOf(active)) && Ordered(active, Less) && SameApplied(old(Now()), Now())
      ensures ok ==> Split(plan, names, |names|, active, deferred)
      ensures (forall n :: n in active ==> n in registry)
              && forall i, j :: 0 <= i < j < |active| ==> active[i] != active[j]
      ensures SetOf(active) <= AtRisk(plan, committed, pending) <= Participants(plan, committed, pending)
      ensures !weather.Free? && plan.id != "" && Participants(plan, committed, pending) <= registry.Keys ==> ok
      ensures weather.Broken? && AtRisk(plan, committed, pending) != {} ==>
                SetOf(active) == AtRisk(plan, committed, pending) && active != []
    {
      hide Staged, Idle, Split, Share, Less, Ordered, SameApplied, AtRisk, Attainable, Participants, DevicesOf;
      ok, active, deferred := PrepareAll(plan, names, up, weather);
      ghost var upto: nat :| Split(plan, names, upto, active, deferred);
      SplitActiveFacts(plan, names, upto, active, deferred);
      SplitAttainable(plan, names, upto, active, deferred);
      AtRiskAre(plan, names, active, committed, pending);
    }

    /** The transaction itself: prepare, commit, verify, record. */
    method Transact(plan: Plan, names: seq<string>, up: seq<bool>, weather: Weather)
      returns (ok: bool, ghost active: seq<string>)
      requires Wired() && Idle(Now()) && Ordered(names, Less) && "" !in DevicesOf(plan.routes)
      requires |up| == |names| && (!weather.Free? ==> forall i :: 0 <= i < |names| && names[i] in registry ==> up[i])
      requires SetOf(names) == Participants(plan, committed, pending)
               && forall i, j :: 0 <= i < j < |names| ==> names[i] != names[j]
      modifies this, Devices(), journal
      ensures Promised(plan, ok, active, old(Books()), Books())
      ensures weather.Calm? && Feasible(plan, old(Now()), old(committed), old(pending)) ==> ok
      ensures weather.Broken? && AtRisk(plan, old(committed), old(pending)) != {} ==>
                !ok && SetOf(active) == AtRisk(plan, old(committed), old(pending))
    {
      hide Staged, Idle, Split, Reached, Gated, Holds, Succeeded, Delivered, Failed, AllConsistent, Consistent,
           Covered, Tracked, Feasible, Share, DevicesOf, DevicesOfPlan, Accounted, Visible, Less, Ordered, SortRoutes,
           Promised, Open, Participants, SameApplied, OnlyReads, Wired, SetOf, Sorted, InFlight, Held, AtRisk,
           Attainable, Now;
      WiredSize();
      ghost var s := Books();
      ghost var sure := weather.Calm? && Feasible(plan, s.views, committed, pending);
      if sure {
        FeasibleFacts(plan, s.views, committed, pending);
      }
      var prepared, taking, deferred := Stage(plan, names, up, weather);
      active := taking;
      NothingYet(s.views, Now(), plan, active, journal.log);
      ok := prepared;
      if ok {
        ok := CommitAndCheck(plan, taking, weather, s.views);
      }
      if ok {
        PromisedSuccess(plan, names, taking, deferred, s, Now(), journal.log);
        ok := Publish(plan, SetOf(deferred), weather);
      }
      if !ok {
        Abort(plan, taking, s.views);
        PromisedAbort(plan, active, s, Books());
      }
    }

    lemma AtRiskAre(plan: Plan, names: seq<string>, active: seq<string>, was: Option<Plan>, waiting: set<string>)
      requires SetOf(names) == Participants(plan, was, waiting) && "" !in DevicesOf(plan.routes)
      requires (active != [] ==> plan.id != "") && forall n :: n in active ==> Attainable(SetOf(names), n)
      ensures SetOf(active) <= AtRisk(plan, was, waiting)
      ensures plan.id != "" && (forall n :: Attainable(SetOf(names), n) ==> n in active) ==>
                SetOf(active) == AtRisk(plan, was, waiting)
      ensures plan.id == "" ==> AtRisk(plan, was, waiting) == {}
      ensures active == [] ==> SetOf(active) == {}
    {
      hide Less, Participants, DevicesOf;
    }

    lemma WiredSize()
      requires Wired()
      ensures batchSize > 0
    {
    }

    lemma PromisedSuccess(plan: Plan, names: seq<string>, active: seq<string>, deferred: seq<string>, s: State,
                          after: Views, log: seq<Entry>)
      requires batchSize > 0 && Idle(s.views) && s.views.Keys == registry.Keys
               && Staged(s.views, after, plan, SetOf(active))
      requires SetOf(names) == Participants(plan, s.committed, s.pending)
               && Split(plan, names, |names|, active, deferred)
      requires Holds(after, plan, SetOf(active)) && Ordered(active, Less)
      requires SetOf(active) <= AtRisk(plan, s.committed, s.pending)
      requires s.log <= log && Gated(log, |s.log|, active, batchSize, plan)
               && Visible(s.views, after, log, |s.log|, plan.id)
      ensures Promised(plan, true, active, s, State(after, Some(plan), SetOf(deferred), log))
    {
      hide Idle, Staged, Split, Holds, Succeeded, Less, Ordered, Gated, Visible, Tracked, Participants, SetOf;
      SplitAll(plan, names, active, deferred);
      AfterSuccess(s.views, after, plan, names, active, deferred, s.committed, s.pending);
    }

    lemma PromisedAbort(plan: Plan, active: seq<string>, s: State, t: State)
      requires batchSize > 0 && Idle(t.views) && t.committed == s.committed && t.pending == s.pending
      requires Failed(s.views, t.views, plan, SetOf(active)) && Ordered(active, Less)
      requires SetOf(active) <= AtRisk(plan, s.committed, s.pending)
      requires s.log <= t.log && Gated(t.log, |s.log|, active, batchSize, plan)
      requires plan.routes == plans(plan.id) && Tracked(s.views, s.committed, s.pending) ==>
                 Tracked(t.views, t.committed, t.pending)
      ensures Promised(plan, false, active, s, t)
    {
      hide Idle, Failed, Less, Ordered, Gated, Visible, Tracked, Participants, SetOf;
      FailedVisible(s.views, t.views, t.log, |s.log|, plan, SetOf(active));
    }

    /** Commit in batches and check the whole plan at the end. */
    method CommitAndCheck(plan: Plan, taking: seq<string>, weather: Weather, ghost before: Views) returns (ok: bool)
      requires Wired() && Idle(before) && before.Keys == registry.Keys && SameApplied(before, Now())
      requires Staged(before, Now(), plan, SetOf(taking)) && forall n :: n in taking ==> n in registry
      modifies Devices(), journal
      ensures Staged(before, Now(), plan, SetOf(taking)) && (ok ==> Holds(Now(), plan, SetOf(taking)))
      ensures old(journal.log) <= journal.log && Gated(journal.log, |old(journal.log)|, taking, batchSize, plan)
      ensures Visible(before, Now(), journal.log, |old(journal.log)|, plan.id)
      ensures weather.Calm? && AllConsistent(plans, before) && plan.routes == plans(plan.id) ==> ok
      ensures weather.Broken? && taking != [] ==> !ok
    {
      hide Staged, Idle, Reached, Gated, Holds, AllConsistent, Share, Accounted, Checked, OnlyReads, Visible,
           SortRoutes, SameApplied;
      ghost var was, from := Now(), |journal.log|;
      ok := CommitAll(plan, taking, weather, before);
      AccountedVisible(before, was, Now(), journal.log, from, plan.id);
      if ok {
        if AllConsistent(plans, before) && plan.routes == plans(plan.id) {
          ReachedHolds(plans, before, Now(), plan, SetOf(taking));
        }
        ghost var log := journal.log;
        ok := FinalCheck(plan, taking, weather);
        GatedReads(log, journal.log, from, taking, batchSize, plan);
        VisibleLater(before, Now(), log, journal.log, from, plan.id);
      }
    }

    lemma SplitAll(plan: Plan, names: seq<string>, active: seq<string>, deferred: seq<string>)
      requires Split(plan, names, |names|, active, deferred)
      ensures SetOf(active) == SetOf(names) - SetOf(deferred)
    {
      hide Share;
      assert names[..|names|] == names;
    }

    /** The plan must still be valid, every device must hold its share, and the data plane must agree. */
    method FinalCheck(plan: Plan, taking: seq<string>, weather: Weather) returns (ok: bool)
      requires Wired()
      modifies journal
      ensures Now() == old(Now()) && old(journal.log) <= journal.log && OnlyReads(journal.log, |old(journal.log)|)
      ensures ok ==> Holds(Now(), plan, SetOf(taking))
      ensures weather.Calm? && Holds(Now(), plan, SetOf(taking)) ==> ok
    {
      hide Holds, Seen;
      var valid: bool, delivered: bool := *, *;
      if !weather.Calm? && !valid {
        return false;
      }
      ok := Verify(taking, plan, weather);
      if !weather.Calm? && !delivered {
        return false;
      }
    }

    /** Apply a plan. Without faults a plan that can be applied is. Every failed call leaves the devices as they were if
        the steps back from the plan lead nowhere, and otherwise there are faults with which one does not. */
    method Apply(plan: Plan, weather: Weather) returns (ok: bool, ghost active: seq<string>)
      requires Wired() && Idle(Now())
      modifies this, Devices(), journal
      ensures Promised(plan, ok, active, old(Books()), Books())
      ensures weather.Calm? && Feasible(plan, old(Now()), old(committed), old(pending)) ==> ok
      ensures !ok && Harmless(plan, old(Books())) ==> AsBefore(old(Now()), Now())
      ensures weather.Broken? && !Harmless(plan, old(Books())) ==> !ok && !AsBefore(old(Now()), Now())
    {
      hide Idle, Promised, Feasible, AtRisk, AsBefore, StepsNowhere;
      ghost var start := Books();
      ok, active := Attempt(plan, weather);
      if !ok {
        HarmlessIffAtomic(plan, active, start, Books());
      }
    }

    /** Everybody concerned, in order. */
    method ListParticipants(plan: Plan) returns (names: seq<string>)
      ensures Ordered(names, Less) && SetOf(names) == Participants(plan, committed, pending)
      ensures forall i, j :: 0 <= i < j < |names| ==> names[i] != names[j]
    {
      hide Less, Sorted, Ordered;
      LessLinear();
      names := Sorted(DevicesOf(plan.routes) + DevicesOfPlan(committed) + pending, Less);
      OrderedDistinct(names, Less);
    }

    method Attempt(plan: Plan, weather: Weather) returns (ok: bool, ghost active: seq<string>)
      requires Wired() && Idle(Now())
      modifies this, Devices(), journal
      ensures Promised(plan, ok, active, old(Books()), Books())
      ensures weather.Calm? && Feasible(plan, old(Now()), old(committed), old(pending)) ==> ok
      ensures weather.Broken? && AtRisk(plan, old(committed), old(pending)) != {} ==>
                !ok && SetOf(active) == AtRisk(plan, old(committed), old(pending))
    {
      hide Idle, Holds, Promised, Feasible, Share, DevicesOf, DevicesOfPlan, Less, Ordered, OnlyReads, SortRoutes,
           Seen, AtRisk, Participants, Now;
      ghost var start := Books();
      if weather.Calm? && Feasible(plan, Now(), committed, pending) {
        FeasibleFacts(plan, Now(), committed, pending);
      }
      NothingRead(Now(), plan, journal.log);
      PromisedFailure(plan, start, journal.log);
      var valid: bool := *;
      if weather.Free? && !valid {
        return false, [];
      }
      RefusedOutright(plan, committed, pending);
      if "" in DevicesOf(plan.routes) {
        return false, [];
      }
      var names := ListParticipants(plan);
      if committed.Some? && committed.value.id == plan.id {
        var intact := Verify(names, plan, weather);
        if intact {
          PromisedNoOp(plan, start, journal.log);
          return true, [];
        }
      }
      ghost var log := journal.log;
      var up := Precheck(names, weather);
      ReadsFollow(start.log, log, journal.log);
      ghost var middle := Books();
      ok, active := Transact(plan, names, up, weather);
      PromisedAfterReads(plan, ok, active, start, middle, Books());
    }

    lemma RefusedOutright(plan: Plan, was: Option<Plan>, waiting: set<string>)
      ensures "" in DevicesOf(plan.routes) ==> AtRisk(plan, was, waiting) == {}
    {
    }

    lemma ReadsFollow(log: seq<Entry>, middle: seq<Entry>, more: seq<Entry>)
      requires log <= middle <= more && OnlyReads(middle, |log|) && OnlyReads(more, |middle|)
      ensures OnlyReads(more, |log|)
    {
      assert forall p :: 0 <= p < |middle| ==> more[p] == middle[p];
    }

    lemma NoOp(before: Views, plan: Plan, was: Option<Plan>, waiting: set<string>)
      requires was.Some? && was.value.id == plan.id && Holds(before, plan, Participants(plan, was, waiting))
      ensures Succeeded(before, before, plan, was, waiting, was, waiting)
    {
      hide Holds, Delivered;
    }
  }
}
