/** Running a scenario: timeline actions become events of a topology store. */
module Scenario {
  import opened Basics
  import opened Names
  import opened Fabric
  import opened Store
  import opened ContactPlan

  // ---- event names ---------------------------------------------------------------------------

  const DIGITS := "0123456789"

  function Decimal(n: nat): (s: string)
    ensures s != [] && forall i :: 0 <= i < |s| ==> s[i] in DIGITS
  {
    if n < 10 then [DIGITS[n]] else Decimal(n / 10) + [DIGITS[n % 10]]
  }

  /** At least four digits. */
  function Padded(n: nat): (s: string)
    ensures forall i :: 0 <= i < |s| ==> s[i] in DIGITS
  {
    Zeros(if |Decimal(n)| < 4 then 4 - |Decimal(n)| else 0) + Decimal(n)
  }

  function Zeros(n: nat): (s: string)
    ensures |s| == n && forall i :: 0 <= i < n ==> s[i] == '0'
  {
    seq(n, _ => '0')
  }

  function Value(s: string): nat {
    if s == [] then 0 else Value(s[..|s| - 1]) * 10 + if '0' <= s[|s| - 1] <= '9' then (s[|s| - 1] - '0') as nat else 0
  }

  lemma {:induction false} DecimalValue(n: nat)
    ensures Value(Decimal(n)) == n
  {
    if n >= 10 {
      DecimalValue(n / 10);
      assert Decimal(n)[..|Decimal(n)| - 1] == Decimal(n / 10);
    }
  }

  lemma {:induction false} ZerosValue(n: nat)
    ensures Value(Zeros(n)) == 0
  {
    if n > 0 {
      ZerosValue(n - 1);
      assert Zeros(n)[..n - 1] == Zeros(n - 1);
    }
  }

  lemma {:induction false} PaddingValue(n: nat, s: string)
    ensures Value(Zeros(n) + s) == Value(s)
    decreases |s|
  {
    if s == [] {
      ZerosValue(n);
      assert Zeros(n) + s == Zeros(n);
    } else {
      PaddingValue(n, s[..|s| - 1]);
      assert (Zeros(n) + s)[..n + |s| - 1] == Zeros(n) + s[..|s| - 1];
    }
  }

  lemma PaddedValue(n: nat)
    ensures Value(Padded(n)) == n
  {
    DecimalValue(n);
    PaddingValue(if |Decimal(n)| < 4 then 4 - |Decimal(n)| else 0, Decimal(n));
  }

  /** The ID of the event that the action at position `i` raises for a subject. */
  function EventId(scenario: string, i: nat, subject: string): (id: string)
    ensures id != ""
  {
    scenario + "-" + Padded(i) + "-" + subject
  }

  lemma SplitAtDash(s: string, a: string, t: string, b: string)
    requires (forall i :: 0 <= i < |s| ==> s[i] in DIGITS) && (forall i :: 0 <= i < |t| ==> t[i] in DIGITS)
    requires s + "-" + a == t + "-" + b
    ensures s == t && a == b
  {
    var w := s + "-" + a;
    assert w[|s|] == '-' && w[|t|] == '-';
    assert s == w[..|s|] && t == w[..|t|] && a == w[|s| + 1..] && b == w[|t| + 1..];
  }

  /** Two events of one run have the same ID only if they come from the same action and subject. */
  lemma EventIdsDiffer(scenario: string, i: nat, a: string, j: nat, b: string)
    requires EventId(scenario, i, a) == EventId(scenario, j, b)
    ensures i == j && a == b
  {
    hide Padded, Value;
    var x, y := Padded(i) + "-" + a, Padded(j) + "-" + b;
    assert EventId(scenario, i, a) == scenario + "-" + x && EventId(scenario, j, b) == scenario + "-" + y;
    assert x == (scenario + "-" + x)[|scenario| + 1..] && y == (scenario + "-" + y)[|scenario| + 1..];
    SplitAtDash(Padded(i), a, Padded(j), b);
    PaddedValue(i);
    PaddedValue(j);
  }

  // ---- links ---------------------------------------------------------------------------------

  predicate HasLink(s: Snapshot, x: string) {
    LinkAt(s.links, x) < |s.links|
  }

  predicate IsUp(s: Snapshot, x: string) {
    var i := LinkAt(s.links, x);
    i < |s.links| && s.links[i].operationalUp
  }

  ghost predicate SameLinks(s: Snapshot, t: Snapshot) {
    |s.links| == |t.links| && forall i :: 0 <= i < |s.links| ==> s.links[i].id == t.links[i].id
  }

  lemma SameLinksFound(s: Snapshot, t: Snapshot, x: string)
    requires SameLinks(s, t)
    ensures LinkAt(s.links, x) == LinkAt(t.links, x) && HasLink(s, x) == HasLink(t, x)
  {
    var i, j := LinkAt(s.links, x), LinkAt(t.links, x);
    assert (i < |s.links| ==> t.links[i].id == x) && (j < |t.links| ==> s.links[j].id == x);
  }

  // ---- one event -----------------------------------------------------------------------------

  /** A link event moves the link it names and no other. */
  lemma LinkEvent(s: Snapshot, e: Event, x: string)
    requires (e.kind == LinkUp || e.kind == LinkDown) && e.link.Some? && e.link.value.id == e.subject
             && HasLink(s, e.subject)
    ensures Mutated(s, e).Some? && Mutated(s, e).value.nodes == s.nodes && Mutated(s, e).value.version == s.version
    ensures SameLinks(s, Mutated(s, e).value)
    ensures IsUp(Mutated(s, e).value, x) <==> if x == e.subject then e.kind == LinkUp else IsUp(s, x)
  {
    SameLinksFound(s, Mutated(s, e).value, x);
  }

  lemma LinkEventValid(s: Snapshot, e: Event)
    requires (e.kind == LinkUp || e.kind == LinkDown) && e.link.Some? && e.link.value.id == e.subject
             && HasLink(s, e.subject)
    requires s.Valid()
    ensures Mutated(s, e).Some? && Mutated(s, e).value.Valid()
  {
    var t := Mutated(s, e).value;
    forall id ensures s.HasNode(id) == t.HasNode(id) {
    }
    forall i | 0 <= i < |t.links| ensures t.ValidLink(t.links[i]) {
      assert s.ValidLink(s.links[i]);
    }
  }

  /** Events raised so far carry earlier names, and the sequence counters are not behind the store. */
  ghost predicate Tracks(b: Books, sequences: map<string, nat>, scenario: string, index: nat, done: seq<string>) {
    && (forall id :: id in b.seen ==> Raised(id, scenario, index, done))
    && forall s :: LastOf(b.last, s) <= LastOf(sequences, s)
  }

  ghost predicate Raised(id: string, scenario: string, index: nat, done: seq<string>) {
    exists j: nat, s :: id == EventId(scenario, j, s) && (j < index || (j == index && s in done))
  }

  lemma TracksEvent(b: Books, sequences: map<string, nat>, scenario: string, index: nat, done: seq<string>, e: Event,
                    now: Time)
    requires Tracks(b, sequences, scenario, index, done)
    requires e.id == EventId(scenario, index, e.subject) && e.sequence == LastOf(sequences, e.subject) + 1
    ensures Tracks(b, sequences[e.subject := e.sequence], scenario, index, done + [e.subject])
    ensures Applied(b, e, now).Some? ==>
              Tracks(Applied(b, e, now).value, sequences[e.subject := e.sequence], scenario, index, done + [e.subject])
  {
    hide Mutated, Snapshot.Valid;
    var more := done + [e.subject];
    forall id | id in b.seen ensures Raised(id, scenario, index, more) {
      var j: nat, s :| id == EventId(scenario, j, s) && (j < index || (j == index && s in done));
    }
    assert e.subject in more;
    assert Raised(e.id, scenario, index, more);
  }

  lemma TracksOn(b: Books, sequences: map<string, nat>, scenario: string, index: nat, done: seq<string>)
    requires Tracks(b, sequences, scenario, index, done)
    ensures Tracks(b, sequences, scenario, index + 1, [])
  {
    forall id | id in b.seen ensures Raised(id, scenario, index + 1, []) {
      var j: nat, s :| id == EventId(scenario, j, s) && (j < index || (j == index && s in done));
      assert j < index + 1;
    }
  }

  /** An event for a known link that this action has not named before is accepted. */
  lemma LinkEventAccepted(b: Books, sequences: map<string, nat>, scenario: string, index: nat, done: seq<string>,
                          e: Event, now: Time)
    requires Tracks(b, sequences, scenario, index, done) && e.subject !in done
    requires e.id == EventId(scenario, index, e.subject) && e.sequence == LastOf(sequences, e.subject) + 1
             && e.effectiveAt <= now
    requires (e.kind == LinkUp || e.kind == LinkDown) && e.link.Some? && e.link.value.id == e.subject
    requires b.snapshot.Valid() && HasLink(b.snapshot, e.subject) && b.snapshot.version + 1 < MODULUS
    ensures Applied(b, e, now).Some?
  {
    hide Mutated, Snapshot.Valid, EventId;
    if e.id in b.seen {
      assert Raised(e.id, scenario, index, done);
      var j: nat, s :| e.id == EventId(scenario, j, s) && (j < index || (j == index && s in done));
      EventIdsDiffer(scenario, index, e.subject, j, s);
    }
    SubjectNamed(b.snapshot, e.subject);
    var s := b.snapshot.(version := NextVersion(b.snapshot.version));
    ValidIgnoresVersion(b.snapshot, s);
    LinkEventValid(s, e);
  }

  lemma SubjectNamed(s: Snapshot, x: string)
    requires s.Valid() && HasLink(s, x)
    ensures x != ""
  {
    assert s.ValidLink(s.links[LinkAt(s.links, x)]);
  }

  // ---- one action ----------------------------------------------------------------------------

  predicate IsLinkAction(a: Action) {
    a.kind == UP || a.kind == DOWN
  }

  predicate IsNodeAction(a: Action) {
    (a.kind == "node_up" || a.kind == "node_down") && |a.ids| == 1
  }

  /** Whether the event of the action at a position for a subject reaches durable storage. */
  type Disk = (nat, string) -> bool

  /** The n-th link of the action is unknown or was named before, or its event is not persisted. */
  predicate Flawed(a: Action, index: nat, n: nat, s: Snapshot, persists: Disk)
    requires n < |a.ids|
  {
    !HasLink(s, a.ids[n]) || a.ids[n] in a.ids[..n] || !persists(index, a.ids[n])
  }

  /** The event for the n-th link of the action is refused, if those before it were accepted: it is flawed, or the
      64-bit version counter is used up. */
  predicate Stuck(a: Action, index: nat, n: nat, s: Snapshot, persists: Disk)
    requires n < |a.ids|
  {
    Flawed(a, index, n, s, persists) || s.version + n + 1 >= MODULUS
  }

  ghost predicate Executable(a: Action, index: nat, s: Snapshot, persists: Disk) {
    forall n :: 0 <= n < |a.ids| ==> !Flawed(a, index, n, s, persists)
  }

  /** The first `n` links have gone up or down, and `n` is where the action is stuck or at its end. */
  ghost predicate PerformedTo(a: Action, index: nat, n: nat, before: Snapshot, after: Snapshot, persists: Disk) {
    && PerformedUpTo(a, n, before, after)
    && (forall m :: 0 <= m < n ==> !Stuck(a, index, m, before, persists))
    && (n < |a.ids| ==> Stuck(a, index, n, before, persists))
  }

  /** What an action does to the links. */
  ghost predicate Performed(a: Action, index: nat, before: Snapshot, after: Snapshot, persists: Disk) {
    if IsLinkAction(a) then exists n: nat :: PerformedTo(a, index, n, before, after, persists)
    else after.links == before.links && after.version <= before.version + |a.ids|
  }

  /** Links that an action does not touch stay. Those of an action without flaws go up or down while versions last. */
  lemma ActionEffect(a: Action, index: nat, before: Snapshot, after: Snapshot, persists: Disk)
    requires Performed(a, index, before, after, persists)
    ensures SameLinks(before, after)
    ensures forall x :: !a.Touches(x) ==> IsUp(after, x) == IsUp(before, x)
    ensures Executable(a, index, before, persists) && before.version + |a.ids| < MODULUS ==>
              forall x :: a.Touches(x) ==> (IsUp(after, x) <==> a.kind == UP)
    ensures after.version <= before.version + |a.ids|
  {
    hide Flawed;
    if IsLinkAction(a) {
      var n: nat :| PerformedTo(a, index, n, before, after, persists);
      hide IsUp;
      assert forall x :: x in a.ids[..n] ==> x in a.ids;
      assert n == |a.ids| ==> a.ids[..n] == a.ids;
    }
  }

  /** The first links of an action have been dealt with. */
  ghost predicate PerformedUpTo(a: Action, n: nat, before: Snapshot, after: Snapshot) {
    && n <= |a.ids| && SameLinks(before, after) && after.version == before.version + n
    && forall x :: IsUp(after, x) <==> if x in a.ids[..n] then a.kind == UP else IsUp(before, x)
  }

  lemma PerformedMore(a: Action, n: nat, before: Snapshot, middle: Snapshot, after: Snapshot)
    requires PerformedUpTo(a, n, before, middle) && n < |a.ids| && SameLinks(middle, after)
             && after.version == middle.version + 1
    requires forall x :: IsUp(after, x) <==> if x == a.ids[n] then a.kind == UP else IsUp(middle, x)
    ensures PerformedUpTo(a, n + 1, before, after)
  {
    hide IsUp;
    assert a.ids[..n + 1] == a.ids[..n] + [a.ids[n]];
  }

  lemma AppliedLink(b: Books, e: Event, now: Time)
    requires Applied(b, e, now).Some? && (e.kind == LinkUp || e.kind == LinkDown) && e.link.Some?
             && e.link.value.id == e.subject
    requires HasLink(b.snapshot, e.subject)
    ensures var s := Applied(b, e, now).value.snapshot;
            SameLinks(b.snapshot, s)
              && forall x :: IsUp(s, x) <==> if x == e.subject then e.kind == LinkUp else IsUp(b.snapshot, x)
  {
    var s := b.snapshot.(version := NextVersion(b.snapshot.version));
    forall x ensures IsUp(Applied(b, e, now).value.snapshot, x) <==>
        if x == e.subject then e.kind == LinkUp else IsUp(b.snapshot, x) {
      LinkEvent(s, e, x);
    }
    LinkEvent(s, e, e.subject);
  }

  lemma EventRefused(b: Books, e: Event, now: Time)
    requires e.id in b.seen || b.snapshot.version + 1 == MODULUS
    ensures Applied(b, e, now).None?
  {
    var s := b.snapshot.(version := NextVersion(b.snapshot.version));
    MutatedIgnoresVersion(s, s, e);
  }

  lemma EventSeen(b: Books, e: Event, now: Time)
    requires Applied(b, e, now).Some?
    ensures Applied(b, e, now).value.seen.Keys == b.seen.Keys + {e.id}
  {
  }

  /** The events for the links named so far have been accepted. */
  ghost predicate AllSeen(b: Books, scenario: string, index: nat, done: seq<string>) {
    forall s :: s in done ==> EventId(scenario, index, s) in b.seen
  }

  /** An event for a known link is accepted exactly if the action has not named the link before and there is a version
      left for it. */
  lemma LinkEventAcceptedIff(b: Books, sequences: map<string, nat>, scenario: string, index: nat, done: seq<string>,
                             e: Event, now: Time)
    requires Tracks(b, sequences, scenario, index, done) && AllSeen(b, scenario, index, done)
    requires e.id == EventId(scenario, index, e.subject) && e.sequence == LastOf(sequences, e.subject) + 1
             && e.effectiveAt <= now
    requires (e.kind == LinkUp || e.kind == LinkDown) && e.link.Some? && e.link.value.id == e.subject
    requires b.snapshot.Valid() && HasLink(b.snapshot, e.subject) && b.snapshot.version < MODULUS
    ensures Applied(b, e, now).Some? <==> e.subject !in done && b.snapshot.version + 1 < MODULUS
    ensures Applied(b, e, now).Some? ==> AllSeen(Applied(b, e, now).value, scenario, index, done + [e.subject])
  {
    hide Applied, Tracks, EventId, Snapshot.Valid, HasLink;
    if e.subject in done || b.snapshot.version + 1 == MODULUS {
      EventRefused(b, e, now);
    } else {
      LinkEventAccepted(b, sequences, scenario, index, done, e, now);
      EventSeen(b, e, now);
    }
  }

  /** Raise an event for every link of the action, stopping at the first that is unknown or refused. */
  method ExecuteLinks(store: TopologyStore, index: nat, action: Action, counters: map<string, nat>, scenario: string,
                      clock: (nat, string) -> Time, persists: Disk)
    returns (sequences: map<string, nat>)
    requires store.Valid() && IsLinkAction(action)
    requires Tracks(store.Now(), counters, scenario, index, [])
    modifies store
    ensures store.Valid() && Tracks(store.Now(), sequences, scenario, index + 1, [])
    ensures Performed(action, index, old(store.snapshot), store.snapshot, persists)
  {
    hide Snapshot.Valid, Tracks, PerformedUpTo, Applied, IsUp, HasLink, SameLinks, InOrder, LinkAt, EventId, AllSeen,
         Stuck;
    ghost var before := store.snapshot;
    sequences := counters;
    var links := store.snapshot.links;
    assert action.ids[..0] == [];
    PerformedNothing(action, before);
    NoneSeen(store.Now(), scenario, index);
    for n := 0 to |action.ids|
      invariant store.Valid() && Tracks(store.Now(), sequences, scenario, index, action.ids[..n])
      invariant AllSeen(store.Now(), scenario, index, action.ids[..n])
      invariant store.snapshot.version == before.version + n
      invariant PerformedUpTo(action, n, before, store.snapshot) && before.links == links
      invariant forall m :: 0 <= m < n ==> !Stuck(action, index, m, before, persists)
    {
      var id := action.ids[n];
      assert action.ids[..n + 1] == action.ids[..n] + [id];
      StillThere(action, n, before, store.snapshot, id);
      StuckMeans(action, index, n, before, persists);
      var at := LinkAt(links, id);
      if at == |links| {
        TracksOn(store.Now(), sequences, scenario, index, action.ids[..n]);
        assert PerformedTo(action, index, n, before, store.snapshot, persists);
        return;
      }
      var now := clock(index, id);
      var e := Event(EventId(scenario, index, id), id, LastOf(sequences, id) + 1,
                     if action.kind == UP then LinkUp else LinkDown, now, now,
                     Some(links[at]), None);
      ghost var was := store.Now();
      TracksEvent(was, sequences, scenario, index, action.ids[..n], e, now);
      LinkEventAcceptedIff(was, sequences, scenario, index, action.ids[..n], e, now);
      var ok := store.Apply(e, now, persists(index, id));
      sequences := sequences[id := e.sequence];
      if !ok {
        TracksOn(store.Now(), sequences, scenario, index, action.ids[..n + 1]);
        assert PerformedTo(action, index, n, before, store.snapshot, persists);
        return;
      }
      AppliedLink(was, e, now);
      PerformedMore(action, n, before, was.snapshot, store.snapshot);
    }
    assert action.ids[..|action.ids|] == action.ids;
    TracksOn(store.Now(), sequences, scenario, index, action.ids);
    assert PerformedTo(action, index, |action.ids|, before, store.snapshot, persists);
  }

  lemma NoneSeen(b: Books, scenario: string, index: nat)
    ensures AllSeen(b, scenario, index, [])
  {
  }

  lemma StuckMeans(a: Action, index: nat, n: nat, s: Snapshot, persists: Disk)
    requires n < |a.ids|
    ensures Stuck(a, index, n, s, persists) <==>
              LinkAt(s.links, a.ids[n]) == |s.links| || a.ids[n] in a.ids[..n] || !persists(index, a.ids[n])
                || s.version + n + 1 >= MODULUS
  {
  }

  lemma PerformedNothing(a: Action, s: Snapshot)
    ensures PerformedUpTo(a, 0, s, s)
  {
  }

  lemma StillThere(a: Action, n: nat, before: Snapshot, now: Snapshot, id: string)
    requires PerformedUpTo(a, n, before, now)
    ensures LinkAt(before.links, id) < |before.links| ==> HasLink(now, id)
  {
    SameLinksFound(before, now, id);
  }

  lemma AppliedNode(b: Books, e: Event, now: Time)
    requires Applied(b, e, now).Some? && (e.kind == NodeUp || e.kind == NodeDown)
    ensures Applied(b, e, now).value.snapshot.links == b.snapshot.links
  {
  }

  /** One timeline action. */
  method Execute(store: TopologyStore, index: nat, action: Action, counters: map<string, nat>, scenario: string,
                 clock: (nat, string) -> Time, persists: Disk)
    returns (sequences: map<string, nat>)
    requires store.Valid()
    requires Tracks(store.Now(), counters, scenario, index, [])
    modifies store
    ensures store.Valid() && Tracks(store.Now(), sequences, scenario, index + 1, [])
    ensures Performed(action, index, old(store.snapshot), store.snapshot, persists)
  {
    hide Snapshot.Valid, Tracks, PerformedTo, Applied, InOrder, NodeAt, EventId;
    sequences := counters;
    if IsLinkAction(action) {
      sequences := ExecuteLinks(store, index, action, counters, scenario, clock, persists);
      return;
    }
    if IsNodeAction(action) {
      var id := action.ids[0];
      var at := NodeAt(store.snapshot.nodes, id);
      if at < |store.snapshot.nodes| {
        var now := clock(index, id);
        var e := Event(EventId(scenario, index, id), id, LastOf(sequences, id) + 1,
                       if action.kind == "node_up" then NodeUp else NodeDown, now, now,
                       None, Some(store.snapshot.nodes[at]));
        ghost var was := store.Now();
        TracksEvent(was, sequences, scenario, index, [], e, now);
        var ok := store.Apply(e, now, persists(index, id));
        sequences := sequences[id := e.sequence];
        TracksOn(store.Now(), sequences, scenario, index, [] + [id]);
        if ok {
          AppliedNode(was, e, now);
        }
        return;
      }
    }
    TracksOn(store.Now(), sequences, scenario, index, []);
  }

  // ---- a whole run ---------------------------------------------------------------------------

  const KINDS: set<string> := {"reconcile", UP, DOWN, "node_up", "node_down", "device_fault", "clear_faults"}

  predicate Proper(a: Action) {
    && a.at >= 0 && a.kind in KINDS
    && (IsLinkAction(a) ==> a.ids != [])
    && (a.kind == "node_up" || a.kind == "node_down" || a.kind == "device_fault" ==> |a.ids| == 1 && a.ids[0] != "")
  }

  ghost function Total(actions: seq<Action>): nat {
    if actions == [] then 0 else Total(actions[..|actions| - 1]) + |actions[|actions| - 1].ids|
  }

  /** Every action that touches the link can be carried out in full. */
  ghost predicate Clean(actions: seq<Action>, s: Snapshot, x: string, persists: Disk) {
    forall i :: 0 <= i < |actions| && actions[i].Touches(x) ==> Executable(actions[i], i, s, persists)
  }

  /** The topology after each action, beginning with the one before the first. */
  ghost predicate Followed(history: seq<Snapshot>, actions: seq<Action>, persists: Disk) {
    && |history| == |actions| + 1
    && forall n :: 0 <= n < |actions| ==> Performed(actions[n], n, history[n], history[n + 1], persists)
  }

  /** Along a run, a link is up as the timeline so far says. */
  lemma {:induction false} RunReplays(history: seq<Snapshot>, actions: seq<Action>, x: string, n: nat, persists: Disk)
    requires Followed(history, actions, persists) && n <= |actions| && Clean(actions, history[0], x, persists)
    requires history[0].version + Total(actions) < MODULUS
    ensures SameLinks(history[0], history[n]) && history[n].version <= history[0].version + Total(actions[..n])
    ensures IsUp(history[n], x) == Replayed(actions[..n], x, IsUp(history[0], x))
  {
    hide IsUp, Executable, Performed;
    if n > 0 {
      RunReplays(history, actions, x, n - 1, persists);
      TotalGrows(actions, n - 1);
      assert Performed(actions[n - 1], n - 1, history[n - 1], history[n], persists);
      ActionEffect(actions[n - 1], n - 1, history[n - 1], history[n], persists);
      assert actions[..n][..n - 1] == actions[..n - 1];
      if actions[n - 1].Touches(x) {
        ExecutableStays(actions[n - 1], n - 1, history[0], history[n - 1], persists);
      }
    }
  }

  lemma ExecutableStays(a: Action, index: nat, s: Snapshot, t: Snapshot, persists: Disk)
    requires SameLinks(s, t) && Executable(a, index, s, persists)
    ensures Executable(a, index, t, persists)
  {
    forall n | 0 <= n < |a.ids| ensures !Flawed(a, index, n, t, persists) {
      assert !Flawed(a, index, n, s, persists);
      SameLinksFound(s, t, a.ids[n]);
    }
  }

  lemma {:induction false} TotalGrows(actions: seq<Action>, n: nat)
    requires n < |actions|
    ensures Total(actions[..n]) + |actions[n].ids| == Total(actions[..n + 1]) <= Total(actions)
    decreases |actions| - n
  {
    assert actions[..n + 1][..n] == actions[..n];
    if n + 1 < |actions| {
      TotalGrows(actions, n + 1);
    } else {
      assert actions[..n + 1] == actions;
    }
  }

  lemma FollowedGrows(history: seq<Snapshot>, actions: seq<Action>, n: nat, s: Snapshot, persists: Disk)
    requires n < |actions| && Followed(history, actions[..n], persists)
             && Performed(actions[n], n, history[n], s, persists)
    ensures Followed(history + [s], actions[..n + 1], persists)
  {
    hide Performed;
    var more := history + [s];
    forall k | 0 <= k < n + 1 ensures Performed(actions[..n + 1][k], k, more[k], more[k + 1], persists) {
      if k < n {
        assert Performed(actions[..n][k], k, history[k], history[k + 1], persists);
      }
    }
  }

  /** The intents are valid and have different IDs. */
  ghost predicate ProperIntents(intents: seq<Intent>) {
    && (forall i :: 0 <= i < |intents| ==> intents[i].Valid())
    && forall i, j :: 0 <= i < j < |intents| ==> intents[i].id != intents[j].id
  }

  /** The checks before a run. */
  method Validate(scenario: string, initial: Snapshot, intents: seq<Intent>, timeline: seq<Action>) returns (ok: bool)
    ensures ok <==> && scenario != "" && initial.Valid() && ProperIntents(intents)
                    && forall i :: 0 <= i < |timeline| ==> Proper(timeline[i])
  {
    hide Snapshot.Valid, Intent.Valid, Proper;
    if scenario == "" || !initial.Valid() {
      return false;
    }
    var ids: set<string> := {};
    for i := 0 to |intents|
      invariant ProperIntents(intents[..i]) && forall id :: id in ids <==> exists k :: 0 <= k < i && intents[k].id == id
    {
      if !intents[i].Valid() || intents[i].id in ids {
        return false;
      }
      ids := ids + {intents[i].id};
    }
    assert intents[..|intents|] == intents;
    for i := 0 to |timeline|
      invariant forall k :: 0 <= k < i ==> Proper(timeline[k])
    {
      if !Proper(timeline[i]) {
        return false;
      }
    }
    ok := true;
  }

  /** Run a scenario on a new store: the actions in order of time, each as events of the store. `ready` says whether the
      application could be set up. */
  method Run(scenario: string, initial: Snapshot, intents: seq<Intent>, timeline: seq<Action>,
             clock: (nat, string) -> Time, persists: Disk, ready: bool)
    returns (r: Option<Snapshot>, ghost history: seq<Snapshot>)
    requires initial.version < MODULUS
    ensures r.Some? <==> && ready && scenario != "" && initial.Valid() && ProperIntents(intents)
                         && forall i :: 0 <= i < |timeline| ==> Proper(timeline[i])
    ensures r.Some? ==> && Followed(history, SortBy(timeline, Earlier), persists)
                        && history[0] == initial && history[|timeline|] == r.value
  {
    hide Snapshot.Valid, Tracks, Performed, Followed, SortBy, InOrder, Proper, ProperIntents;
    history := [];
    var ok := Validate(scenario, initial, intents, timeline);
    if !ok || !ready {
      return None, history;
    }
    var actions := SortBy(timeline, Earlier);
    var store := new TopologyStore(initial);
    var sequences: map<string, nat> := map[];
    history := [initial];
    RunStarts(initial, actions, scenario, persists);
    for n := 0 to |actions|
      invariant store.Valid() && fresh(store) && Tracks(store.Now(), sequences, scenario, n, [])
      invariant |history| == n + 1 && Followed(history, actions[..n], persists) && history[0] == initial
                && history[n] == store.snapshot
    {
      sequences := Execute(store, n, actions[n], sequences, scenario, clock, persists);
      FollowedGrows(history, actions, n, store.snapshot, persists);
      history := history + [store.snapshot];
    }
    assert actions[..|actions|] == actions;
    r := Some(store.snapshot);
  }

  lemma RunStarts(initial: Snapshot, actions: seq<Action>, scenario: string, persists: Disk)
    ensures Tracks(Books(initial, map[], map[]), map[], scenario, 0, [])
    ensures Followed([initial], actions[..0], persists)
  {
  }

  // ---- compiled scenarios --------------------------------------------------------------------

  lemma {:induction false} KnownIsThere(links: seq<Link>, s: Snapshot, x: string)
    requires s.links == links && Known(links, x).Some?
    ensures HasLink(s, x)
  {
    var i :| 0 <= i < |links| && links[i].id == x;
  }

  lemma {:induction false} RowsAreIntroduced(links: seq<Link>, rows: seq<Row>, k: nat)
    requires k < |rows|
    ensures Known(Introduced(links, rows), rows[k].link).Some?
  {
    var front, last := rows[..|rows| - 1], rows[|rows| - 1];
    var before, after := Introduced(links, front), Introduced(links, rows);
    if k < |rows| - 1 {
      RowsAreIntroduced(links, front, k);
      assert front[k] == rows[k];
      var i :| 0 <= i < |before| && before[i].id == rows[k].link;
      assert after[i] == before[i];
    } else if Known(before, last.link).None? {
      assert after[|before|].id == last.link;
    }
  }

  /** A link that only rows know starts down. */
  lemma {:induction false} IntroducedDown(links: seq<Link>, rows: seq<Row>, i: nat)
    requires |links| <= i < |Introduced(links, rows)|
    ensures !Introduced(links, rows)[i].operationalUp
  {
    if i < |Introduced(links, rows[..|rows| - 1])| {
      IntroducedDown(links, rows[..|rows| - 1], i);
    }
  }

  /** Where an action of the merged timeline comes from. */
  lemma Origin(timeline: seq<Action>, generated: seq<Action>, i: nat)
    requires i < |timeline| + |generated|
    ensures var a := SortBy(timeline + generated, Earlier)[i]; a in timeline || a in generated
  {
    hide SortBy;
    var all := timeline + generated;
    var a := SortBy(all, Earlier)[i];
    assert a in multiset(SortBy(all, Earlier));
    assert a in all;
  }

  ghost predicate Stored(a: Action, index: nat, persists: Disk) {
    forall n :: 0 <= n < |a.ids| ==> persists(index, a.ids[n])
  }

  /** All events of the actions that touch the link are persisted. */
  ghost predicate AllStored(actions: seq<Action>, x: string, persists: Disk) {
    forall i :: 0 <= i < |actions| && actions[i].Touches(x) ==> Stored(actions[i], i, persists)
  }

  lemma GeneratedExecutable(base: Snapshot, generated: seq<Action>, rows: seq<Row>, g: nat, index: nat, persists: Disk)
    requires Generated(generated, rows) && g < |generated| && Stored(generated[g], index, persists)
    ensures Executable(generated[g], index, base.(links := Introduced(base.links, rows)), persists)
  {
    hide Introduced, Known, HasLink, KeyLess;
    var s, ids := base.(links := Introduced(base.links, rows)), generated[g].ids;
    forall n | 0 <= n < |ids| ensures !Flawed(generated[g], index, n, s, persists) {
      assert ids[n] in generated[g].ids;
      assert Asked(rows, generated[g].at, generated[g].kind, ids[n]);
      var row :| 0 <= row < |rows| && rows[row].link == ids[n];
      RowsAreIntroduced(base.links, rows, row);
      KnownIsThere(s.links, s, ids[n]);
    }
  }

  /** Every action of the table can be carried out on the compiled topology. */
  lemma CompiledClean(base: Snapshot, timeline: seq<Action>, generated: seq<Action>, rows: seq<Row>, x: string,
                      persists: Disk)
    requires Generated(generated, rows) && forall i :: 0 <= i < |timeline| ==> !timeline[i].Touches(x)
    requires AllStored(SortBy(timeline + generated, Earlier), x, persists)
    ensures Clean(SortBy(timeline + generated, Earlier), base.(links := Introduced(base.links, rows)), x, persists)
  {
    hide SortBy, Introduced, Generated, Executable, Stored;
    var merged := SortBy(timeline + generated, Earlier);
    forall i | 0 <= i < |merged| && merged[i].Touches(x)
      ensures Executable(merged[i], i, base.(links := Introduced(base.links, rows)), persists)
    {
      Origin(timeline, generated, i);
      var g :| 0 <= g < |generated| && generated[g] == merged[i];
      GeneratedExecutable(base, generated, rows, g, i, persists);
    }
  }

  /** A compiled timeline passes the checks made before a run if the base timeline does. */
  lemma CompiledProper(timeline: seq<Action>, generated: seq<Action>, rows: seq<Row>)
    requires Generated(generated, rows) && (forall k :: 0 <= k < |rows| ==> 0 <= rows[k].start < rows[k].end)
    requires forall i :: 0 <= i < |timeline| ==> Proper(timeline[i])
    ensures forall i :: 0 <= i < |timeline| + |generated| ==> Proper(SortBy(timeline + generated, Earlier)[i])
  {
    hide SortBy, Generated, Proper;
    var merged := SortBy(timeline + generated, Earlier);
    forall i | 0 <= i < |merged| ensures Proper(merged[i]) {
      Origin(timeline, generated, i);
      if merged[i] in generated {
        var g :| 0 <= g < |generated| && generated[g] == merged[i];
        GeneratedProper(generated, rows, g);
      }
    }
  }

  lemma GeneratedProper(generated: seq<Action>, rows: seq<Row>, g: nat)
    requires Generated(generated, rows) && (forall k :: 0 <= k < |rows| ==> 0 <= rows[k].start < rows[k].end)
             && g < |generated|
    ensures Proper(generated[g])
  {
    hide KeyLess, Unique;
    assert generated[g].ids[0] in generated[g].ids;
    assert Asked(rows, generated[g].at, generated[g].kind, generated[g].ids[0]);
  }

  /** From the table to the store: at every instant of a run of the compiled scenario, a link that the
      table introduced is up in the topology exactly if the instant lies in one of its windows. */
  lemma CompiledRunFollowsTable(base: Snapshot, timeline: seq<Action>, generated: seq<Action>, rows: seq<Row>,
                                history: seq<Snapshot>, x: string, t: int, n: nat, persists: Disk)
    requires Compilable(base, rows) && Generated(generated, rows)
    requires var compiled := SortBy(timeline + generated, Earlier);
             && Followed(history, SortBy(compiled, Earlier), persists) && AllStored(compiled, x, persists)
             && history[0] == base.(links := Introduced(base.links, rows))
             && Cut(compiled, n, t) && base.version + Total(compiled) < MODULUS
    requires Known(base.links, x).None? && forall i :: 0 <= i < |timeline| ==> !timeline[i].Touches(x)
    ensures IsUp(history[n], x) <==> Covered(rows, x, t)
  {
    hide SortBy, Introduced, Generated, IsUp, Compatible, Followed, Covered, Clean, AllStored;
    var compiled := SortBy(timeline + generated, Earlier);
    SortAscending(timeline + generated, Earlier);
    SortIdempotent(compiled, Earlier);
    CompiledClean(base, timeline, generated, rows, x, persists);
    FollowedLength(history, compiled, persists);
    RunReplays(history, compiled, x, n, persists);
    StartsDown(base, rows, x);
    MeaningKept(timeline, generated, rows, x, t, n);
  }

  lemma FollowedLength(history: seq<Snapshot>, actions: seq<Action>, persists: Disk)
    requires Followed(history, actions, persists)
    ensures |history| == |actions| + 1
  {
  }

  lemma StartsDown(base: Snapshot, rows: seq<Row>, x: string)
    requires Known(base.links, x).None?
    ensures !IsUp(base.(links := Introduced(base.links, rows)), x)
  {
    var links := Introduced(base.links, rows);
    var i := LinkAt(links, x);
    assert base.links <= links;
    if |base.links| <= i < |links| {
      IntroducedDown(base.links, rows, i);
    }
  }
}
