/** The versioned topology: events are applied exactly once and in order per subject, one by one or in
    batches, with a duplicate cache that may forget. */
module Store {
  import opened Basics
  import opened Fabric

  datatype Kind = LinkUp | LinkDown | LinkUpdate | NodeUp | NodeDown | Unsupported

  datatype Event = Event(id: string, subject: string, sequence: nat, kind: Kind, observedAt: Time, effectiveAt: Time,
                         link: Option<Link>, node: Option<Node>)

  const FIVE_MINUTES: int := 300_000_000_000

  /** Everything the store owns. */
  datatype Books = Books(snapshot: Snapshot, seen: map<string, Time>, last: map<string, nat>)

  function LastOf(last: map<string, nat>, subject: string): nat {
    if subject in last then last[subject] else 0
  }

  /** The next 64-bit version number. */
  function NextVersion(v: nat): nat {
    (v + 1) % MODULUS
  }

  /** The position of the first link with this ID, or the length of the list. */
  function LinkAt(links: seq<Link>, id: string): (i: nat)
    ensures i <= |links| && (i < |links| ==> links[i].id == id) && forall k :: 0 <= k < i ==> links[k].id != id
  {
    if links == [] || links[0].id == id then 0 else 1 + LinkAt(links[1..], id)
  }

  function NodeAt(nodes: seq<Node>, id: string): (i: nat)
    ensures i <= |nodes| && (i < |nodes| ==> nodes[i].id == id) && forall k :: 0 <= k < i ==> nodes[k].id != id
  {
    if nodes == [] || nodes[0].id == id then 0 else 1 + NodeAt(nodes[1..], id)
  }

  /** The link a link event leaves in the topology, given the one that was there. */
  function LinkAfter(e: Event, was: Option<Link>): Link
    requires e.link.Some?
  {
    var base := if was.None? || e.kind == LinkUpdate then e.link.value else was.value;
    var up := if e.kind == LinkUp then true else if e.kind == LinkDown then false else base.operationalUp;
    base.(operationalUp := up, telemetryAt := if e.observedAt != 0 then e.observedAt else base.telemetryAt)
  }

  /** What an event makes of the nodes and links. */
  function Mutated(s: Snapshot, e: Event): Option<Snapshot> {
    if e.kind == LinkUp || e.kind == LinkDown || e.kind == LinkUpdate then
      if e.link.None? then None else
        var i := LinkAt(s.links, e.link.value.id);
        if i == |s.links| then
          if e.kind == LinkDown then None else Some(s.(links := s.links + [LinkAfter(e, None)]))
        else Some(s.(links := s.links[i := LinkAfter(e, Some(s.links[i]))]))
    else if e.kind == NodeUp || e.kind == NodeDown then
      if e.node.None? then None else
        var i := NodeAt(s.nodes, e.node.value.id);
        if i == |s.nodes| then None else Some(s.(nodes := s.nodes[i := s.nodes[i].(enabled := e.kind == NodeUp)]))
    else None
  }

  predicate WellFormed(e: Event) {
    e.id != "" && e.subject != "" && e.sequence > 0
  }

  predicate SubjectMatches(e: Event) {
    (e.link.Some? ==> e.link.value.id == e.subject) && (e.node.Some? ==> e.node.value.id == e.subject)
  }

  /** The replay guards admit the event. */
  predicate Admits(seen: map<string, Time>, last: map<string, nat>, e: Event, now: Time) {
    WellFormed(e) && e.id !in seen && e.sequence > LastOf(last, e.subject) && e.effectiveAt <= now
  }

  /** One event applied on its own: the new books, or nothing if it is rejected. */
  function Applied(b: Books, e: Event, now: Time): Option<Books> {
    if !Admits(b.seen, b.last, e, now) then None else
      var next := Mutated(b.snapshot.(version := NextVersion(b.snapshot.version)), e);
      if next.None? || !next.value.Valid() then None
      else Some(Books(next.value, b.seen[e.id := now], b.last[e.subject := e.sequence]))
  }

  /** Events applied on their own, one after the other, at one instant. */
  function AppliedAll(b: Books, events: seq<Event>, now: Time): Option<Books> {
    if events == [] then Some(b) else
      var before := AppliedAll(b, events[..|events| - 1], now);
      if before.None? then None else Applied(before.value, events[|events| - 1], now)
  }

  function Remembered(seen: map<string, Time>, now: Time): map<string, Time> {
    map k | k in seen && seen[k] >= now - FIVE_MINUTES :: seen[k]
  }

  /** A batch collected so far: no version, no validation between the events. */
  function Collected(b: Books, events: seq<Event>, now: Time): Option<Books> {
    if events == [] then Some(b.(seen := Remembered(b.seen, now))) else
      var before := Collected(b, events[..|events| - 1], now);
      var e := events[|events| - 1];
      if before.None? || !Admits(before.value.seen, before.value.last, e, now) || !SubjectMatches(e) then None else
        var next := Mutated(before.value.snapshot, e);
        if next.None? then None
        else Some(Books(next.value, before.value.seen[e.id := now], before.value.last[e.subject := e.sequence]))
  }

  /** A whole batch as one new version. */
  function Batched(b: Books, events: seq<Event>, now: Time): Option<Books> {
    if !(1 <= |events| <= 10_000) then None else
      var all := Collected(b, events, now);
      if all.None? then None else
        var next := all.value.snapshot.(version := NextVersion(all.value.snapshot.version));
        if !next.Valid() then None else Some(all.value.(snapshot := next))
  }

  // ---- batches refine single events ----------------------------------------------------------

  lemma MutatedIgnoresVersion(s: Snapshot, t: Snapshot, e: Event)
    requires s.nodes == t.nodes && s.links == t.links
    ensures Mutated(s, e).Some? <==> Mutated(t, e).Some?
    ensures Mutated(s, e).Some? ==>
              && Mutated(s, e).value.nodes == Mutated(t, e).value.nodes
              && Mutated(s, e).value.links == Mutated(t, e).value.links
              && Mutated(s, e).value.version == s.version
  {
  }

  lemma {:induction false} CollectedFollows(b: Books, events: seq<Event>, now: Time)
    requires AppliedAll(b, events, now).Some? && forall i :: 0 <= i < |events| ==> SubjectMatches(events[i])
    ensures Collected(b, events, now).Some?
    ensures var one, all := AppliedAll(b, events, now).value, Collected(b, events, now).value;
            && all.snapshot.nodes == one.snapshot.nodes && all.snapshot.links == one.snapshot.links
            && all.last == one.last && all.seen.Keys <= one.seen.Keys && all.snapshot.version == b.snapshot.version
  {
    if events != [] {
      var front, e := events[..|events| - 1], events[|events| - 1];
      CollectedFollows(b, front, now);
      var one, all := AppliedAll(b, front, now).value, Collected(b, front, now).value;
      MutatedIgnoresVersion(all.snapshot, one.snapshot.(version := NextVersion(one.snapshot.version)), e);
    }
  }

  lemma {:induction false} AppliedAllValid(b: Books, events: seq<Event>, now: Time)
    requires AppliedAll(b, events, now).Some? && events != []
    ensures AppliedAll(b, events, now).value.snapshot.Valid()
    ensures NextVersion(b.snapshot.version) > 0
  {
    var front, e := events[..|events| - 1], events[|events| - 1];
    if front != [] {
      AppliedAllValid(b, front, now);
    }
    var before := AppliedAll(b, front, now).value;
    MutatedIgnoresVersion(before.snapshot.(version := NextVersion(before.snapshot.version)), before.snapshot, e);
  }

  /** If every event would be accepted on its own in turn, the batch is accepted and leads to the same
      nodes, links and sequence guards. */
  lemma BatchRefinesSequence(b: Books, events: seq<Event>, now: Time)
    requires 1 <= |events| <= 10_000 && AppliedAll(b, events, now).Some? && b.snapshot.version < MODULUS
    requires forall i :: 0 <= i < |events| ==> SubjectMatches(events[i])
    ensures Batched(b, events, now).Some?
    ensures var one, all := AppliedAll(b, events, now).value, Batched(b, events, now).value;
            && all.snapshot.nodes == one.snapshot.nodes && all.snapshot.links == one.snapshot.links
            && all.last == one.last
            && all.snapshot.version == b.snapshot.version + 1
  {
    CollectedFollows(b, events, now);
    AppliedAllValid(b, events, now);
    var one, all := AppliedAll(b, events, now).value, Collected(b, events, now).value;
    ValidIgnoresVersion(one.snapshot, all.snapshot.(version := NextVersion(b.snapshot.version)));
    assert all.snapshot.version == b.snapshot.version;
  }

  lemma ValidIgnoresVersion(s: Snapshot, t: Snapshot)
    requires s.Valid() && t.version > 0 && s.nodes == t.nodes && s.links == t.links
    ensures t.Valid()
  {
    forall id ensures s.HasNode(id) == t.HasNode(id) {
    }
    forall i | 0 <= i < |t.links| ensures t.ValidLink(t.links[i]) {
      assert s.ValidLink(s.links[i]);
    }
  }

  /** A batch skips three checks that single events undergo: validity in between, duplicates it has
      forgotten, and one version per event. */
  ghost predicate StepwiseFine(b: Books, events: seq<Event>, now: Time) {
    && b.snapshot.version + |events| < MODULUS
    && (forall i :: 0 <= i < |events| ==> events[i].id !in b.seen)
    && forall i :: 1 <= i <= |events| && Collected(b, events[..i], now).Some? ==>
         Collected(b, events[..i], now).value.snapshot.(version := 1).Valid()
  }

  /** One step of that: `one` and `all` agree except for versions and forgotten duplicates. */
  lemma AppliedStep(one: Books, all: Books, e: Event, now: Time)
    requires all.snapshot.nodes == one.snapshot.nodes && all.snapshot.links == one.snapshot.links
             && all.last == one.last
    requires one.snapshot.version + 1 < MODULUS && e.id !in one.seen && Admits(all.seen, all.last, e, now)
    requires Mutated(all.snapshot, e).Some? && Mutated(all.snapshot, e).value.(version := 1).Valid()
    ensures Applied(one, e, now).Some?
    ensures var next := Applied(one, e, now).value;
            && next.snapshot.nodes == Mutated(all.snapshot, e).value.nodes
            && next.snapshot.links == Mutated(all.snapshot, e).value.links
            && next.snapshot.version == one.snapshot.version + 1
            && next.last == all.last[e.subject := e.sequence] && next.seen == one.seen[e.id := now]
  {
    hide Mutated, Snapshot.Valid;
    var s := one.snapshot.(version := NextVersion(one.snapshot.version));
    MutatedIgnoresVersion(all.snapshot, s, e);
    MutatedIgnoresVersion(s, all.snapshot, e);
    ValidIgnoresVersion(Mutated(all.snapshot, e).value.(version := 1), Mutated(s, e).value);
  }

  lemma StepwiseFront(b: Books, events: seq<Event>, now: Time)
    requires StepwiseFine(b, events, now) && events != [] && Collected(b, events, now).Some?
    ensures StepwiseFine(b, events[..|events| - 1], now) && events[|events| - 1].id !in b.seen
    ensures Collected(b, events, now).value.snapshot.(version := 1).Valid()
  {
    hide Collected, Snapshot.Valid;
    var front := events[..|events| - 1];
    assert events[..|events|] == events;
    forall i | 1 <= i <= |front| && Collected(b, front[..i], now).Some?
      ensures Collected(b, front[..i], now).value.snapshot.(version := 1).Valid()
    {
      assert front[..i] == events[..i];
    }
  }

  lemma {:induction false} AppliedFollows(b: Books, events: seq<Event>, now: Time)
    requires Collected(b, events, now).Some? && StepwiseFine(b, events, now)
    ensures AppliedAll(b, events, now).Some?
    ensures var one, all := AppliedAll(b, events, now).value, Collected(b, events, now).value;
            && all.snapshot.nodes == one.snapshot.nodes && all.snapshot.links == one.snapshot.links
            && all.last == one.last
            && one.snapshot.version == b.snapshot.version + |events|
            && (forall k :: k in one.seen ==> k in b.seen || k in all.seen)
  {
    hide Mutated, Snapshot.Valid, Applied, Admits;
    if events != [] {
      var front, e := events[..|events| - 1], events[|events| - 1];
      StepwiseFront(b, events, now);
      AppliedFollows(b, front, now);
      var one, all := AppliedAll(b, front, now).value, Collected(b, front, now).value;
      NotSeen(all.seen, all.last, e, now);
      AppliedStep(one, all, e, now);
    }
  }

  lemma NotSeen(seen: map<string, Time>, last: map<string, nat>, e: Event, now: Time)
    requires Admits(seen, last, e, now)
    ensures e.id !in seen
  {
  }

  /** With those checks granted, an accepted batch is an accepted sequence. */
  lemma BatchIsSequence(b: Books, events: seq<Event>, now: Time)
    requires Batched(b, events, now).Some? && StepwiseFine(b, events, now)
    ensures AppliedAll(b, events, now).Some?
    ensures AppliedAll(b, events, now).value.last == Batched(b, events, now).value.last
    ensures AppliedAll(b, events, now).value.snapshot.links == Batched(b, events, now).value.snapshot.links
    ensures AppliedAll(b, events, now).value.snapshot.nodes == Batched(b, events, now).value.snapshot.nodes
  {
    AppliedFollows(b, events, now);
  }

  // ---- exactly once --------------------------------------------------------------------------

  /** The log of applied events is strictly ascending per subject, and the guards know its end. */
  ghost predicate InOrder(log: seq<Event>, last: map<string, nat>) {
    && (forall i, j :: 0 <= i < j < |log| && log[i].subject == log[j].subject ==> log[i].sequence < log[j].sequence)
    && forall i :: 0 <= i < |log| ==> log[i].sequence <= LastOf(last, log[i].subject)
  }

  lemma InOrderGrows(log: seq<Event>, last: map<string, nat>, e: Event)
    requires InOrder(log, last) && e.sequence > LastOf(last, e.subject)
    ensures InOrder(log + [e], last[e.subject := e.sequence])
  {
  }

  lemma {:induction false} CollectedInOrder(b: Books, events: seq<Event>, now: Time, log: seq<Event>)
    requires Collected(b, events, now).Some? && InOrder(log, b.last)
    ensures InOrder(log + events, Collected(b, events, now).value.last)
  {
    if events == [] {
      assert log + events == log;
    } else {
      var front, e := events[..|events| - 1], events[|events| - 1];
      CollectedInOrder(b, front, now, log);
      InOrderGrows(log + front, Collected(b, front, now).value.last, e);
      assert log + events == log + front + [e];
    }
  }

  // ---- the store -----------------------------------------------------------------------------

  class TopologyStore {
    var snapshot: Snapshot
    var seen: map<string, Time>
    var last: map<string, nat>
    ghost var log: seq<Event>        // every event ever applied
    ghost var versions: seq<nat>     // every version ever published

    ghost function Now(): Books
      reads this
    {
      Books(snapshot, seen, last)
    }

    ghost predicate Valid()
      reads this
    {
      && snapshot.Valid() && snapshot.version < MODULUS && InOrder(log, last)
      && versions != [] && versions[|versions| - 1] == snapshot.version
      && forall i, j :: 0 <= i < j < |versions| ==> versions[i] < versions[j]
    }

    constructor (initial: Snapshot)
      requires initial.Valid() && initial.version < MODULUS
      ensures Valid() && Now() == Books(initial, map[], map[]) && log == [] && versions == [initial.version]
    {
      snapshot, seen, last, log, versions := initial, map[], map[], [], [initial.version];
    }

    /** Replace the whole topology by a newer one. */
    method Replace(next: Snapshot, persists: bool) returns (ok: bool)
      requires Valid() && next.version < MODULUS
      modifies this
      ensures Valid() && log == old(log) && old(versions) <= versions
      ensures ok <==> next.Valid() && next.version > old(snapshot.version) && persists
      ensures Now() == if ok then old(Now()).(snapshot := next) else old(Now())
    {
      if !next.Valid() || next.version <= snapshot.version {
        return false;
      }
      var previous := snapshot;
      snapshot := next;
      if !persists {
        snapshot := previous;
        return false;
      }
      versions := versions + [next.version];
      return true;
    }

    /** Apply one event. */
    method Apply(e: Event, now: Time, persists: bool) returns (ok: bool)
      requires Valid()
      modifies this
      ensures Valid() && old(versions) <= versions
      ensures ok <==> Applied(old(Now()), e, now).Some? && persists
      ensures Now() == if ok then Applied(old(Now()), e, now).value else old(Now())
      ensures log == old(log) + if ok then [e] else []
      ensures ok ==> snapshot.version == old(snapshot.version) + 1
    {
      hide Snapshot.Valid, InOrder, Mutated;
      if !WellFormed(e) || e.id in seen || e.sequence <= LastOf(last, e.subject) {
        return false;
      }
      if e.effectiveAt != 0 && e.effectiveAt > now {
        return false;
      }
      var previous, previousSeen, previousLast := snapshot, seen, last;
      var started := snapshot.(version := NextVersion(snapshot.version));
      var next := Mutate(started, e);
      if next.None? || !next.value.Valid() {
        return false;
      }
      MutatedIgnoresVersion(started, started, e);
      ValidVersion(next.value);
      snapshot, seen, last := next.value, seen[e.id := now], last[e.subject := e.sequence];
      if !persists {
        snapshot, seen, last := previous, seen - {e.id}, previousLast;
        assert seen == previousSeen;
        return false;
      }
      InOrderGrows(log, previousLast, e);
      log, versions := log + [e], versions + [snapshot.version];
      return true;
    }

    /** Take in the events on working copies of the topology, the duplicate cache and the guards. */
    method CollectAll(events: seq<Event>, now: Time) returns (r: Option<Books>)
      ensures r == Collected(Now(), events, now)
    {
      hide Mutated, Admits, SubjectMatches;
      var next: Snapshot, recent: map<string, Time>, sequences: map<string, nat> := snapshot, Remembered(seen, now),
        last;
      for i := 0 to |events|
        invariant Collected(Now(), events[..i], now) == Some(Books(next, recent, sequences))
      {
        var e := events[i];
        assert events[..i + 1][..i] == events[..i] && events[..i + 1][i] == e;
        if !Admits(recent, sequences, e, now) || !SubjectMatches(e) {
          NotCollected(Now(), events, now, i + 1);
          return None;
        }
        var after := Mutate(next, e);
        if after.None? {
          NotCollected(Now(), events, now, i + 1);
          return None;
        }
        next, recent, sequences := after.value, recent[e.id := now], sequences[e.subject := e.sequence];
      }
      assert events[..|events|] == events;
      r := Some(Books(next, recent, sequences));
    }

    /** Apply a sampling instant as one version, or not at all. */
    method ApplyBatch(events: seq<Event>, now: Time, persists: bool) returns (ok: bool)
      requires Valid()
      modifies this
      ensures Valid() && old(versions) <= versions
      ensures ok <==> Batched(old(Now()), events, now).Some? && persists
      ensures Now() == if ok then Batched(old(Now()), events, now).value else old(Now())
      ensures log == old(log) + if ok then events else []
      ensures ok ==> snapshot.version == old(snapshot.version) + 1
    {
      hide Snapshot.Valid, InOrder, Collected;
      if |events| == 0 || |events| > 10_000 {
        return false;
      }
      var all := CollectAll(events, now);
      if all.None? {
        return false;
      }
      CollectedVersion(Now(), events, now);
      var next := all.value.snapshot.(version := NextVersion(all.value.snapshot.version));
      if !next.Valid() {
        return false;
      }
      ValidVersion(next);
      CollectedInOrder(Now(), events, now, log);
      var previous, previousSeen, previousLast := snapshot, seen, last;
      snapshot, seen, last := next, all.value.seen, all.value.last;
      if !persists {
        snapshot, seen, last := previous, previousSeen, previousLast;
        return false;
      }
      log, versions := log + events, versions + [snapshot.version];
      return true;
    }

    /** Forget old entries of the duplicate cache. The sequence guards stay. */
    method ExpireSeen(before: Time) returns (removed: nat)
      requires Valid()
      modifies this
      ensures Valid() && log == old(log) && versions == old(versions)
      ensures snapshot == old(snapshot) && last == old(last)
      ensures seen == map k | k in old(seen) && old(seen)[k] >= before :: old(seen)[k]
      ensures removed == |old(seen)| - |seen|
    {
      removed := 0;
      var keys := seen.Keys;
      while keys != {}
        invariant Valid() && log == old(log) && versions == old(versions) && snapshot == old(snapshot)
                  && last == old(last)
        invariant keys <= seen.Keys
        invariant seen == map k | k in old(seen) && (k in keys || old(seen)[k] >= before) :: old(seen)[k]
        invariant removed == |old(seen)| - |seen|
        decreases |keys|
      {
        var k :| k in keys;
        keys := keys - {k};
        if seen[k] < before {
          assert (seen - {k}).Keys == seen.Keys - {k};
          seen := seen - {k};
          removed := removed + 1;
        }
      }
    }
  }

  lemma ValidVersion(s: Snapshot)
    requires s.Valid()
    ensures s.version > 0
  {
  }

  lemma {:induction false} CollectedVersion(b: Books, events: seq<Event>, now: Time)
    requires Collected(b, events, now).Some?
    ensures Collected(b, events, now).value.snapshot.version == b.snapshot.version
  {
    if events != [] {
      var front, e := events[..|events| - 1], events[|events| - 1];
      CollectedVersion(b, front, now);
      var s := Collected(b, front, now).value.snapshot;
      MutatedIgnoresVersion(s, s, e);
    }
  }

  /** A batch fails as soon as one of its beginnings does. */
  lemma {:induction false} NotCollected(b: Books, events: seq<Event>, now: Time, i: nat)
    requires i <= |events| && Collected(b, events[..i], now).None?
    ensures Collected(b, events, now).None?
    decreases |events|
  {
    if i == |events| {
      assert events[..i] == events;
    } else {
      var front := events[..|events| - 1];
      assert front[..i] == events[..i];
      NotCollected(b, front, now, i);
    }
  }

  /** Find the object of an event and change it. */
  method Mutate(s: Snapshot, e: Event) returns (r: Option<Snapshot>)
    ensures r == Mutated(s, e)
  {
    if e.kind == LinkUp || e.kind == LinkDown || e.kind == LinkUpdate {
      if e.link.None? {
        return None;
      }
      var i := 0;
      while i < |s.links| && s.links[i].id != e.link.value.id
        invariant 0 <= i <= |s.links| && forall k :: 0 <= k < i ==> s.links[k].id != e.link.value.id
      {
        i := i + 1;
      }
      assert i == LinkAt(s.links, e.link.value.id);
      var links := s.links;
      if i == |links| {
        if e.kind != LinkUpdate && e.kind != LinkUp {
          return None;
        }
        links := links + [e.link.value];
      } else if e.kind == LinkUpdate {
        links := links[i := e.link.value];
      }
      if e.kind == LinkUp {
        links := links[i := links[i].(operationalUp := true)];
      }
      if e.kind == LinkDown {
        links := links[i := links[i].(operationalUp := false)];
      }
      if e.observedAt != 0 {
        links := links[i := links[i].(telemetryAt := e.observedAt)];
      }
      assert links == if i == |s.links| then s.links + [LinkAfter(e, None)]
               else s.links[i := LinkAfter(e, Some(s.links[i]))];
      return Some(s.(links := links));
    }
    if e.kind == NodeUp || e.kind == NodeDown {
      if e.node.None? {
        return None;
      }
      for i := 0 to |s.nodes|
        invariant forall k :: 0 <= k < i ==> s.nodes[k].id != e.node.value.id
      {
        if s.nodes[i].id == e.node.value.id {
          assert i == NodeAt(s.nodes, e.node.value.id);
          return Some(s.(nodes := s.nodes[i := s.nodes[i].(enabled := e.kind == NodeUp)]));
        }
      }
      return None;
    }
    return None;
  }
}
