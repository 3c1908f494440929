/** The feeder-terminal allocator: an incremental b-matching between ground sites and satellites
    that moves contacts along augmenting paths and protects established contacts. */
module Feeder {
  import opened Basics
  import opened Names
  import opened Allocation

  type Table = map<string, set<string>>

  function Give(t: Table, key: string, value: string): (r: Table)
    requires key in t
    ensures r.Keys == t.Keys && forall k :: k in t && k != key ==> r[k] == t[k]
  {
    t[key := t[key] + {value}]
  }

  function Take(t: Table, key: string, value: string): (r: Table)
    requires key in t
    ensures r.Keys == t.Keys && forall k :: k in t && k != key ==> r[k] == t[k]
  {
    t[key := t[key] - {value}]
  }

  lemma {:induction false} RowImage(sats: set<string>, g: string)
    ensures |set s | s in sats :: Contact(s, g)| == |sats|
  {
    if sats != {} {
      var s :| s in sats;
      RowImage(sats - {s}, g);
      assert (set t | t in sats :: Contact(t, g)) == (set t | t in sats - {s} :: Contact(t, g)) + {Contact(s, g)};
    }
  }

  lemma {:induction false} ColumnImage(sites: set<string>, s: string)
    ensures |set g | g in sites :: Contact(s, g)| == |sites|
  {
    if sites != {} {
      var g :| g in sites;
      ColumnImage(sites - {g}, s);
      assert (set h | h in sites :: Contact(s, h)) == (set h | h in sites - {g} :: Contact(s, h)) + {Contact(s, g)};
    }
  }

  class Terminals {
    const choices: map<string, seq<string>>   // visible satellites of each site, best first
    const limit: nat                          // feeder terminals per satellite
    const budget: nat                         // terminals per ground site
    const selected: map<Contact, real>        // contacts of the previous frame and when they began
    const offset: Option<real>                // time of this frame
    const acquisition: real                   // acquisition time in seconds

    var held: Table                       // site -> satellites
    var owners: Table                         // satellite -> sites

    constructor (choices: map<string, seq<string>>, limit: nat, budget: nat, selected: map<Contact, real>,
                 offset: Option<real>, acquisition: real)
      ensures this.choices == choices && this.limit == limit && this.budget == budget
      ensures this.selected == selected && this.offset == offset && this.acquisition == acquisition
      ensures Mirrored(held, owners) && Contacts(held) == {}
    {
      this.choices, this.limit, this.budget := choices, limit, budget;
      this.selected, this.offset, this.acquisition := selected, offset, acquisition;
      held := map g | g in choices :: {};
      owners := map s | s in SatsOf(choices) :: {};
    }

    static function SatsOf(choices: map<string, seq<string>>): set<string> {
      set g, s | g in choices && s in choices[g] :: s
    }

    function Sats(): set<string> {
      SatsOf(choices)
    }

    ghost function Eligible(): set<Contact> {
      set g, s | g in choices && s in choices[g] :: Contact(s, g)
    }

    /** A contact is locked once it has been held for the acquisition time. */
    predicate Locked(s: string, g: string) {
      Contact(s, g) in selected &&
      (offset.None? || offset.value - selected[Contact(s, g)] >= acquisition)
    }

    function LockedSats(sats: set<string>, g: string): set<string> {
      set s | s in sats && Locked(s, g)
    }

    /** The two maps describe one allocation of eligible contacts within the satellite limits. */
    ghost predicate Mirrored(a: Table, o: Table) {
      && a.Keys == choices.Keys
      && o.Keys == Sats()
      && (forall g, s :: g in a && s in a[g] ==> s in o && g in o[s])
      && (forall s, g :: s in o && g in o[s] ==> g in a && s in a[g])
      && (forall g, s :: g in a && s in a[g] ==> s in choices[g])
      && (forall s :: s in o ==> |o[s]| <= limit)
    }

    function Contacts(a: Table): set<Contact> {
      set g, s | g in a && s in a[g] :: Contact(s, g)
    }

    /** No site falls below two locked contacts, or below what it had if that was less. */
    ghost predicate KeepsService(before: Table, after: Table) {
      forall g :: g in before && g in after ==>
        Min(2, |LockedSats(before[g], g)|) <= |LockedSats(after[g], g)|
    }

    /** `after` gives `gw` one contact more than `before` and every other site as many as before. */
    ghost predicate Augments(before: Table, after: Table, gw: string) {
      && after.Keys == before.Keys && gw in before
      && |after[gw]| == |before[gw]| + 1
      && forall g :: g in before && g != gw ==> |after[g]| == |before[g]|
    }

    /** Every satellite `g` could still be given is in `visited`. */
    ghost predicate Reached(a: Table, g: string, visited: set<string>)
      requires g in choices && g in a
    {
      forall s :: s in choices[g] ==> s in a[g] || s in visited
    }

    /** The satellites in `tried` are full, and so is everything that their replaceable owners
        could move to. */
    ghost predicate Explored(a: Table, o: Table, tried: set<string>, visited: set<string>)
      requires Mirrored(a, o)
    {
      forall s :: s in tried ==>
        && s in o && |o[s]| >= limit
        && forall g :: g in o[s] && Contact(s, g) !in selected ==> Reached(a, g, visited)
    }

    lemma MirroredKeys(a: Table, o: Table)
      requires Mirrored(a, o)
      ensures a.Keys == choices.Keys && o.Keys == Sats()
      ensures forall s, g :: s in o && g in o[s] ==> g in a && g in choices
    {
    }

    lemma DropMirrored(a: Table, o: Table, s: string, g: string)
      requires Mirrored(a, o) && s in o && g in o[s]
      ensures g in a && s in a[g] && g in choices && a.Keys == choices.Keys && o.Keys == Sats()
      ensures Mirrored(Take(a, g, s), Take(o, s, g)) && Take(o, s, g)[s] == o[s] - {g}
      ensures Give(Take(a, g, s), g, s) == a && Give(Take(o, s, g), s, g) == o
    {
      hide Mirrored;
      DropStillMirrored(a, o, s, g);
      assert a[g] - {s} + {s} == a[g] && o[s] - {g} + {g} == o[s];
    }

    lemma DropStillMirrored(a: Table, o: Table, s: string, g: string)
      requires Mirrored(a, o) && s in o && g in o[s]
      ensures g in a && s in a[g] && g in choices && a.Keys == choices.Keys && o.Keys == Sats()
      ensures Mirrored(Take(a, g, s), Take(o, s, g))
    {
      SubsetSize(o[s] - {g}, o[s]);
    }

    lemma AddMirrored(a: Table, o: Table, s: string, g: string)
      requires Mirrored(a, o) && g in choices && s in choices[g] && s in o && s !in a[g] && |o[s]| < limit
      ensures Mirrored(Give(a, g, s), Give(o, s, g))
      ensures Augments(a, Give(a, g, s), g)
      ensures KeepsService(a, Give(a, g, s))
    {
      hide KeepsService, LockedSats;
      AddKeepsService(a, s, g);
    }

    lemma AddKeepsService(a: Table, s: string, g: string)
      requires g in a
      ensures KeepsService(a, Give(a, g, s))
    {
      assert LockedSats(a[g], g) <= LockedSats(a[g] + {s}, g);
      SubsetSize(LockedSats(a[g], g), LockedSats(a[g] + {s}, g));
    }

    /** Giving up a contact that is not established, or one of more than two locked ones. */
    lemma DropKeepsService(a: Table, s: string, g: string)
      requires g in a && s in a[g]
      requires Contact(s, g) !in selected || |LockedSats(a[g], g)| > 2
      ensures KeepsService(a, Take(a, g, s))
    {
      var before, after := LockedSats(a[g], g), LockedSats(a[g] - {s}, g);
      if Contact(s, g) !in selected {
        assert after == before;
      } else {
        assert before <= after + {s};
        SubsetSize(before, after + {s});
      }
    }

    lemma KeepsServiceChains(a: Table, b: Table, c: Table)
      requires a.Keys == b.Keys == c.Keys && KeepsService(a, b) && KeepsService(b, c)
      ensures KeepsService(a, c)
    {
    }

    lemma AugmentsChains(a: Table, b: Table, c: Table, gw: string, other: string, sat: string)
      requires other in a && sat in a[other] && other != gw
      requires Augments(Take(a, other, sat), b, other) && Augments(b, c, gw)
      ensures Augments(a, c, gw)
    {
    }

    lemma Untouched(a: Table, o: Table, a': Table, o': Table, gw: string, sat: string, other: string)
      requires Mirrored(a, o) && Mirrored(a', o') && gw in choices && sat !in a[gw]
      requires sat in o && other in o[sat] && o'[sat] == o[sat] - {other}
      ensures sat in o' && sat !in a'[gw] && gw != other && |o'[sat]| < limit && a'.Keys == a.Keys
    {
    }

    /** A displaced site that found a replacement leaves its satellite to `gw`. */
    lemma Displaces(a: Table, o: Table, a': Table, o': Table, gw: string, sat: string, other: string)
      requires Mirrored(a, o) && Mirrored(a', o') && gw in choices && other in choices
      requires sat in choices[gw] && sat !in a[gw] && sat in o && other in o[sat]
      requires Contact(sat, other) !in selected || |LockedSats(a[other], other)| > 2
      requires Augments(Take(a, other, sat), a', other)
      requires KeepsService(Take(a, other, sat), a')
      requires o'[sat] == o[sat] - {other}
      ensures Mirrored(Give(a', gw, sat), Give(o', sat, gw))
      ensures Augments(a, Give(a', gw, sat), gw)
      ensures KeepsService(a, Give(a', gw, sat))
    {
      hide *;
      DropMirrored(a, o, sat, other);
      Untouched(a, o, a', o', gw, sat, other);
      DropKeepsService(a, sat, other);
      KeepsServiceChains(a, Take(a, other, sat), a');
      AddMirrored(a', o', sat, gw);
      KeepsServiceChains(a, a', Give(a', gw, sat));
      AugmentsChains(a, a', Give(a', gw, sat), gw, other, sat);
    }

    /** What a failed search after removing contact `(s, g)` says about the state before it. */
    lemma ExploredLifts(a: Table, o: Table, s: string, g: string, seen: set<string>, visited: set<string>)
      requires Mirrored(a, o) && g in a && s in a[g] && s in seen && seen <= visited
      requires Mirrored(Take(a, g, s), Take(o, s, g))
      requires Explored(Take(a, g, s), Take(o, s, g), visited - seen, visited)
      requires Reached(Take(a, g, s), g, visited)
      ensures Explored(a, o, visited - seen, visited) && Reached(a, g, visited)
    {
    }

    /** The replaceable sites among `sites` can only move to visited satellites. */
    ghost predicate AllReached(a: Table, sat: string, sites: seq<string>, visited: set<string>) {
      forall k :: 0 <= k < |sites| && Contact(sat, sites[k]) !in selected ==>
        sites[k] in choices && sites[k] in a && Reached(a, sites[k], visited)
    }

    lemma ExploredNothing(a: Table, o: Table, visited: set<string>)
      requires Mirrored(a, o)
      ensures Explored(a, o, visited - visited, visited)
    {
    }

    lemma ExploredGrows(a: Table, o: Table, seen: set<string>, visited: set<string>, sat: string)
      requires Mirrored(a, o) && Explored(a, o, visited - seen, visited) && sat !in visited
      ensures Explored(a, o, visited + {sat} - seen - {sat}, visited + {sat})
      ensures AllReached(a, sat, [], visited + {sat})
    {
    }

    lemma ExploredMore(a: Table, o: Table, seen: set<string>, sat: string, sites: seq<string>, site: string,
                       visited: set<string>, more: set<string>)
      requires Mirrored(a, o) && visited <= more
      requires Explored(a, o, visited - seen - {sat}, visited) && Explored(a, o, more - visited, more)
      requires AllReached(a, sat, sites, visited)
      requires Contact(sat, site) !in selected ==> site in choices && site in a && Reached(a, site, more)
      ensures Explored(a, o, more - seen - {sat}, more)
      ensures AllReached(a, sat, sites + [site], more)
    {
    }

    lemma ExploredAll(a: Table, o: Table, seen: set<string>, sat: string, sites: seq<string>, visited: set<string>)
      requires Mirrored(a, o) && sat in o && |o[sat]| >= limit && forall g :: g in o[sat] ==> g in sites
      requires Explored(a, o, visited - seen - {sat}, visited) && AllReached(a, sat, sites, visited)
      ensures Explored(a, o, visited - seen, visited)
    {
    }

    lemma Visible(g: string, i: nat)
      requires g in choices && i < |choices[g]|
      ensures choices[g][i] in Sats()
    {
      assert choices[g][i] in choices[g];
    }

    ghost predicate Passed(a: Table, g: string, count: nat, visited: set<string>)
      requires g in choices && g in a
    {
      forall i :: 0 <= i < count && i < |choices[g]| ==> choices[g][i] in a[g] || choices[g][i] in visited
    }

    lemma PassedOne(a: Table, g: string, count: nat, visited: set<string>, more: set<string>)
      requires g in choices && g in a && count < |choices[g]| && Passed(a, g, count, visited) && visited <= more
      requires choices[g][count] in a[g] || choices[g][count] in more
      ensures Passed(a, g, count + 1, more)
    {
    }

    lemma PassedNone(a: Table, g: string, visited: set<string>)
      requires g in choices && g in a
      ensures Passed(a, g, 0, visited)
    {
    }

    lemma PassedMore(a: Table, g: string, count: nat, visited: set<string>, more: set<string>)
      requires g in choices && g in a && Passed(a, g, count, visited) && visited <= more
      ensures Passed(a, g, count, more)
    {
    }

    lemma PassedAll(a: Table, g: string, visited: set<string>)
      requires g in choices && g in a && Passed(a, g, |choices[g]|, visited)
      ensures Reached(a, g, visited)
    {
    }

    /** The established contacts of an allocation: those of the previous frame. */
    ghost function Established(a: Table): set<Contact> {
      Contacts(a) * selected.Keys
    }

    /** No feasible allocation that keeps the established contacts gives `gw` one contact more
        while every other site keeps at least its count. */
    ghost predicate NoBetter(a: Table, gw: string) {
      forall b ::
        && Feasible(b, Eligible(), limit)
        && Established(a) <= b
        && (forall g :: g != gw ==> |Row(Contacts(a), g)| <= |Row(b, g)|)
        ==> |Row(b, gw)| <= |Row(Contacts(a), gw)|
    }

    lemma RowSize(a: Table, g: string)
      requires g in a
      ensures |Row(Contacts(a), g)| == |a[g]|
    {
      var f := set s | s in a[g] :: Contact(s, g);
      assert Row(Contacts(a), g) == f;
      RowImage(a[g], g);
    }

    lemma ColumnSize(a: Table, o: Table, s: string)
      requires Mirrored(a, o)
      ensures |Column(Contacts(a), s)| == if s in o then |o[s]| else 0
    {
      if s in o {
        assert Column(Contacts(a), s) == set g | g in o[s] :: Contact(s, g);
        ColumnImage(o[s], s);
      } else {
        assert Column(Contacts(a), s) == {};
      }
    }

    lemma MirroredFeasible(a: Table, o: Table)
      requires Mirrored(a, o)
      ensures Feasible(Contacts(a), Eligible(), limit)
    {
      forall s ensures |Column(Contacts(a), s)| <= limit {
        ColumnSize(a, o, s);
      }
    }

    /** A failed search leaves a certificate: the visited satellites and their replaceable owners. */
    lemma SearchCertificate(a: Table, o: Table, gw: string, visited: set<string>) returns (gs: set<string>)
      requires Mirrored(a, o) && gw in choices
      requires Explored(a, o, visited, visited) && Reached(a, gw, visited)
      ensures gw in gs && Certificate(Contacts(a), Established(a), Eligible(), limit, gs, visited)
      ensures gs <= choices.Keys
    {
      gs := {gw} + set c | c in Contacts(a) && c !in Established(a) && c.sat in visited :: c.gw;
      forall s | s in visited ensures |Column(Contacts(a), s)| >= limit {
        ColumnSize(a, o, s);
      }
      forall c | c in Eligible() && c.gw in gs ensures c.sat in visited || c in Contacts(a) {
        assert Reached(a, c.gw, visited);
      }
    }

    lemma SearchComplete(a: Table, o: Table, gw: string, visited: set<string>)
      requires Mirrored(a, o) && gw in choices
      requires Explored(a, o, visited, visited) && Reached(a, gw, visited)
      ensures NoBetter(a, gw)
    {
      var gs := SearchCertificate(a, o, gw, visited);
      forall b |
        && Feasible(b, Eligible(), limit)
        && Established(a) <= b
        && (forall g :: g != gw ==> |Row(Contacts(a), g)| <= |Row(b, g)|)
        ensures |Row(b, gw)| <= |Row(Contacts(a), gw)|
      {
        NoAugmentation(Contacts(a), b, Established(a), Eligible(), limit, gs, visited, gw);
      }
    }

    /** The displacement order: sites with many alternatives first, then by name. */
    function MostChoicesFirst(): (less: (string, string) -> bool)
      ensures Linear(less)
    {
      var key := (n: string) => if n in choices then -|choices[n]| else 0;
      ByKeyLinear(key);
      ByKey(key)
    }

    /** The round order: sites with few alternatives first, then by name. */
    function FewestChoicesFirst(): (less: (string, string) -> bool)
      ensures Linear(less)
    {
      var key := (n: string) => if n in choices then |choices[n]| else 0;
      ByKeyLinear(key);
      ByKey(key)
    }

    /** No satellite outside `x` carries less than before, and a contact with one of them was given up
        only for a satellite that is full. */
    ghost predicate Denser(a: Table, o: Table, a': Table, o': Table, x: set<string>) {
      && (forall s :: s in o && s !in x ==> s in o' && |o[s]| <= |o'[s]|)
      && (forall g, s :: g in a && s in a[g] && s !in x ==> (g in a' && s in a'[g]) || (s in o' && |o'[s]| >= limit))
    }

    /** No satellite outside `x` that `g` sees and does not hold has a free terminal. */
    ghost predicate Blocked(a: Table, o: Table, g: string, x: set<string>)
      requires g in choices
    {
      forall s :: s in choices[g] && s !in x ==> (g in a && s in a[g]) || (s in o && |o[s]| >= limit)
    }

    lemma DenserSame(a: Table, o: Table, x: set<string>)
      ensures Denser(a, o, a, o, x)
    {
    }

    lemma DenserChains(a: Table, o: Table, b: Table, p: Table, c: Table, q: Table, x: set<string>)
      requires Denser(a, o, b, p, x) && Denser(b, p, c, q, x)
      ensures Denser(a, o, c, q, x)
    {
      forall g, s | g in a && s in a[g] && s !in x ensures (g in c && s in c[g]) || (s in q && |q[s]| >= limit) {
        if g !in b || s !in b[g] {
          assert s in p && |p[s]| <= |q[s]|;
        }
      }
    }

    lemma DenserGives(a: Table, o: Table, s: string, g: string)
      requires g in a && s in o
      ensures Denser(a, o, Give(a, g, s), Give(o, s, g), {})
    {
      SubsetSize(o[s], o[s] + {g});
    }

    /** The displaced site gave up a full satellite, and the satellite is full again. */
    lemma DenserDisplaces(a: Table, o: Table, a': Table, o': Table, gw: string, sat: string, other: string)
      requires other in a && other != gw && sat in o && sat in o' && gw in a'
      requires other in o[sat] && gw !in o[sat] && |o[sat]| >= limit && o'[sat] == o[sat] - {other}
      requires Denser(Take(a, other, sat), Take(o, sat, other), a', o', {})
      ensures Denser(a, o, Give(a', gw, sat), Give(o', sat, gw), {})
    {
      var b, p := Give(a', gw, sat), Give(o', sat, gw);
      assert |p[sat]| == |o[sat]|;
      forall s | s in o ensures s in p && |o[s]| <= |p[s]| {
        assert s != sat ==> Take(o, sat, other)[s] == o[s];
      }
      forall g, s | g in a && s in a[g] ensures (g in b && s in b[g]) || (s in p && |p[s]| >= limit) {
        if s != sat {
          assert s in Take(a, other, sat)[g];
        }
      }
    }

    lemma BlockedStays(a: Table, o: Table, a': Table, o': Table, g: string, x: set<string>)
      requires g in choices && Blocked(a, o, g, x) && Denser(a, o, a', o', x)
      ensures Blocked(a', o', g, x)
    {
    }

    lemma BlockedBut(a: Table, o: Table, g: string, x: set<string>, y: set<string>)
      requires g in choices && Blocked(a, o, g, x) && x <= y
      ensures Blocked(a, o, g, y)
    {
    }

    /** After a failed search every satellite in sight is held, was ruled out, or is full. */
    lemma SearchBlocked(a: Table, o: Table, gw: string, seen: set<string>, visited: set<string>)
      requires Mirrored(a, o) && gw in choices && gw in a
      requires Explored(a, o, visited - seen, visited) && Reached(a, gw, visited)
      ensures Blocked(a, o, gw, seen)
    {
    }

    /** The augmenting search. Success adds exactly one contact to `gw` and leaves all other counts
        alone; failure undoes every move and reports what was explored. */
    method Allocate(gw: string, seen: set<string>) returns (ok: bool, visited: set<string>)
      requires Mirrored(held, owners) && gw in choices && seen <= Sats()
      modifies this
      ensures Mirrored(held, owners) && held.Keys == old(held).Keys && owners.Keys == old(owners).Keys
      ensures seen <= visited <= Sats()
      ensures ok ==> Augments(old(held), held, gw)
      ensures ok ==> KeepsService(old(held), held)
      ensures ok ==> Denser(old(held), old(owners), held, owners, {})
      ensures forall s :: s in seen ==> owners[s] == old(owners)[s]
      ensures !ok ==> held == old(held) && owners == old(owners)
      ensures !ok ==> Explored(held, owners, visited - seen, visited) && Reached(held, gw, visited)
      ensures !ok && seen == {} ==> NoBetter(held, gw)
      decreases |Sats() - seen|
    {
      hide *;
      MirroredKeys(held, owners);
      ExploredNothing(held, owners, seen);
      PassedNone(held, gw, seen);
      visited := seen;
      for i := 0 to |choices[gw]|
        invariant held == old(held) && owners == old(owners)
        invariant seen <= visited <= Sats()
        invariant Explored(held, owners, visited - seen, visited)
        invariant Passed(held, gw, i, visited)
      {
        var sat := choices[gw][i];
        if sat in held[gw] || sat in visited {
          PassedOne(held, gw, i, visited, visited);
          continue;
        }
        Visible(gw, i);
        ExploredGrows(held, owners, seen, visited, sat);
        PassedOne(held, gw, i, visited, visited + {sat});
        visited := visited + {sat};
        if |owners[sat]| < limit {
          AddMirrored(held, owners, sat, gw);
          DenserGives(held, owners, sat, gw);
          owners, held := Give(owners, sat, gw), Give(held, gw, sat);
          return true, visited;
        }
        var others := Sorted(owners[sat], MostChoicesFirst());
        for j := 0 to |others|
          invariant held == old(held) && owners == old(owners)
          invariant seen + {sat} <= visited <= Sats()
          invariant Explored(held, owners, visited - seen - {sat}, visited)
          invariant Passed(held, gw, i + 1, visited)
          invariant AllReached(held, sat, others[..j], visited)
        {
          var other := others[j];
          assert others[..j + 1] == others[..j] + [other];
          if Contact(sat, other) in selected && |LockedSats(held[other], other)| <= 2 {
            ExploredNothing(held, owners, visited);
            ExploredMore(held, owners, seen, sat, others[..j], other, visited, visited);
            continue;
          }
          var moved, more := MoveAway(gw, sat, other, seen, visited);
          if moved {
            return true, more;
          }
          ExploredMore(held, owners, seen, sat, others[..j], other, visited, more);
          PassedMore(held, gw, i + 1, visited, more);
          visited := more;
        }
        assert others[..|others|] == others;
        ExploredAll(held, owners, seen, sat, others, visited);
      }
      PassedAll(held, gw, visited);
      if seen == {} {
        assert visited - seen == visited;
        SearchComplete(held, owners, gw, visited);
      }
      return false, visited;
    }

    /** One displacement: take `sat` from `other`, search a replacement for it, and either hand
        `sat` to `gw` or put it back. */
    method MoveAway(gw: string, sat: string, other: string, ghost outer: set<string>, seen: set<string>)
      returns (ok: bool, visited: set<string>)
      requires Mirrored(held, owners) && gw in choices && outer < seen <= Sats()
      requires sat in choices[gw] && sat !in held[gw] && sat in seen
      requires sat in owners && other in owners[sat] && |owners[sat]| >= limit
      requires Contact(sat, other) !in selected || |LockedSats(held[other], other)| > 2
      modifies this
      ensures Mirrored(held, owners) && held.Keys == old(held).Keys && owners.Keys == old(owners).Keys
      ensures seen <= visited <= Sats()
      ensures ok ==> Augments(old(held), held, gw)
      ensures ok ==> KeepsService(old(held), held)
      ensures ok ==> Denser(old(held), old(owners), held, owners, {})
      ensures forall s :: s in seen && s != sat ==> owners[s] == old(owners)[s]
      ensures !ok ==> held == old(held) && owners == old(owners)
      ensures !ok ==> Explored(held, owners, visited - seen, visited) && Reached(held, other, visited)
      decreases |Sats() - outer|, 0
    {
      hide *;
      ghost var a0, o0 := held, owners;
      DropMirrored(held, owners, sat, other);
      SubsetSize(Sats() - seen, Sats() - outer);
      owners, held := Take(owners, sat, other), Take(held, other, sat);
      ok, visited := Allocate(other, seen);
      if ok {
        Displaces(a0, o0, held, owners, gw, sat, other);
        Untaken(a0, o0, gw, sat);
        DenserDisplaces(a0, o0, held, owners, gw, sat, other);
        owners, held := Give(owners, sat, gw), Give(held, gw, sat);
        return;
      }
      ExploredLifts(a0, o0, sat, other, seen, visited);
      owners, held := Give(owners, sat, other), Give(held, other, sat);
    }

    lemma Untaken(a: Table, o: Table, gw: string, sat: string)
      requires Mirrored(a, o) && gw in a && sat !in a[gw] && sat in o
      ensures gw !in o[sat]
    {
    }

    ghost predicate WithinBudget(a: Table) {
      forall g :: g in a ==> |a[g]| <= budget
    }

    /** Every still-visible contact of the previous frame among the first `count` choices of `g` is
        kept, unless its site or its satellite is out of terminals. */
    ghost predicate Kept(a: Table, o: Table, g: string, count: nat)
      requires Mirrored(a, o) && g in choices
    {
      forall i :: 0 <= i < count && i < |choices[g]| && Contact(choices[g][i], g) in selected ==>
        choices[g][i] in a[g] || |a[g]| >= budget || (choices[g][i] in o && |o[choices[g][i]]| >= limit)
    }

    lemma GiveSeed(a: Table, o: Table, s: string, g: string)
      requires Mirrored(a, o) && WithinBudget(a) && g in choices && s in choices[g]
      requires |a[g]| < budget && s in o && |o[s]| < limit
      ensures Mirrored(Give(a, g, s), Give(o, s, g)) && WithinBudget(Give(a, g, s))
      ensures Contacts(Give(a, g, s)) == Contacts(a) + {Contact(s, g)}
      ensures forall h, n: nat :: h in choices && Kept(a, o, h, n) ==> Kept(Give(a, g, s), Give(o, s, g), h, n)
    {
      if s in a[g] {
        assert a[g] + {s} == a[g] && o[s] + {g} == o[s];
        assert Give(a, g, s) == a && Give(o, s, g) == o;
      } else {
        AddMirrored(a, o, s, g);
        GiveContacts(a, s, g);
        SeedKept(a, o, s, g);
      }
    }

    lemma GiveContacts(a: Table, s: string, g: string)
      requires g in a
      ensures Contacts(Give(a, g, s)) == Contacts(a) + {Contact(s, g)}
    {
    }

    lemma SeedKept(a: Table, o: Table, s: string, g: string)
      requires Mirrored(a, o) && g in choices && s in o && Mirrored(Give(a, g, s), Give(o, s, g))
      ensures forall h, n: nat :: h in choices && Kept(a, o, h, n) ==> Kept(Give(a, g, s), Give(o, s, g), h, n)
    {
      SubsetSize(a[g], a[g] + {s});
      SubsetSize(o[s], o[s] + {g});
    }

    /** The contacts that `gw` keeps. */
    method SeedSite(gw: string)
      requires Mirrored(held, owners) && WithinBudget(held) && Contacts(held) <= selected.Keys && gw in choices
      modifies this
      ensures Mirrored(held, owners) && WithinBudget(held) && Contacts(held) <= selected.Keys
      ensures Kept(held, owners, gw, |choices[gw]|)
      ensures forall h, n: nat :: h in choices && old(Kept(held, owners, h, n)) ==> Kept(held, owners, h, n)
    {
      hide *;
      KeptNone(held, owners, gw);
      for j := 0 to |choices[gw]|
        invariant Mirrored(held, owners) && WithinBudget(held)
        invariant Contacts(held) <= selected.Keys
        invariant forall h, n: nat :: h in choices && old(Kept(held, owners, h, n)) ==> Kept(held, owners, h, n)
        invariant Kept(held, owners, gw, j)
      {
        var sat := choices[gw][j];
        Visible(gw, j);
        MirroredKeys(held, owners);
        if Contact(sat, gw) in selected && |held[gw]| < budget && |owners[sat]| < limit {
          GiveSeed(held, owners, sat, gw);
          owners, held := Give(owners, sat, gw), Give(held, gw, sat);
          KeptOne(held, owners, gw, j);
        } else {
          KeptSkipped(held, owners, gw, j);
        }
      }
    }

    /** Keep the contacts of the previous frame that are still visible, within both budgets. */
    method Seed()
      requires Mirrored(held, owners) && Contacts(held) == {}
      modifies this
      ensures Mirrored(held, owners) && WithinBudget(held)
      ensures Contacts(held) <= selected.Keys
      ensures forall g :: g in choices ==> Kept(held, owners, g, |choices[g]|)
    {
      hide *;
      Unused(held, owners);
      MirroredKeys(held, owners);
      LessLinear();
      var order := Sorted(choices.Keys, Less);
      for i := 0 to |order|
        invariant Mirrored(held, owners) && WithinBudget(held)
        invariant Contacts(held) <= selected.Keys
        invariant forall j :: 0 <= j < i ==> Kept(held, owners, order[j], |choices[order[j]]|)
      {
        SeedSite(order[i]);
      }
    }

    lemma Unused(a: Table, o: Table)
      requires Mirrored(a, o) && Contacts(a) == {}
      ensures WithinBudget(a)
    {
      forall g | g in a ensures a[g] == {} {
        assert forall s | s in a[g] :: Contact(s, g) in Contacts(a);
      }
    }

    lemma KeptNone(a: Table, o: Table, g: string)
      requires Mirrored(a, o) && g in choices
      ensures Kept(a, o, g, 0)
    {
    }

    lemma KeptOne(a: Table, o: Table, g: string, j: nat)
      requires Mirrored(a, o) && g in choices && j < |choices[g]| && Kept(a, o, g, j)
      requires Contact(choices[g][j], g) in Contacts(a)
      ensures Kept(a, o, g, j + 1)
    {
    }

    lemma KeptSkipped(a: Table, o: Table, g: string, j: nat)
      requires Mirrored(a, o) && g in choices && j < |choices[g]| && Kept(a, o, g, j) && choices[g][j] in o
      requires Contact(choices[g][j], g) in selected ==> |a[g]| >= budget || |o[choices[g][j]]| >= limit
      ensures Kept(a, o, g, j + 1)
    {
    }

    /** `donor` hands `sat` over to `gw`. */
    ghost predicate Transfer(before: Table, after: Table, gw: string, donor: string, sat: string) {
      && donor in before && gw in before && gw in choices && donor != gw
      && sat in before[donor] && sat in choices[gw] && sat !in before[gw]
      && after == Give(Take(before, donor, sat), gw, sat)
    }

    /** Nobody who holds a satellite visible from `gw` has more than `spare` contacts. */
    ghost predicate NoneRich(a: Table, o: Table, gw: string, sats: seq<string>, spare: nat)
      requires gw in a
    {
      forall i, n :: 0 <= i < |sats| && sats[i] !in a[gw] && sats[i] in o && n in o[sats[i]] && n in a ==>
            |a[n]| <= spare
    }

    lemma TransferMirrored(a: Table, o: Table, gw: string, donor: string, sat: string)
      requires Mirrored(a, o) && gw in choices && sat in choices[gw] && sat !in a[gw]
      requires sat in o && donor in o[sat]
      ensures donor in a && donor != gw && sat in Take(o, sat, donor) && gw in Take(a, donor, sat)
      ensures var a', o' := Give(Take(a, donor, sat), gw, sat), Give(Take(o, sat, donor), sat, gw);
              && Mirrored(a', o') && Transfer(a, a', gw, donor, sat)
              && |a'[donor]| == |a[donor]| - 1 && |a'[gw]| == |a[gw]| + 1
              && forall g :: g in a && g != gw && g != donor ==> a'[g] == a[g]
    {
      DropMirrored(a, o, sat, donor);
      AddMirrored(Take(a, donor, sat), Take(o, sat, donor), sat, gw);
    }

    /** Exactly when the donor exchange costs the donor its service: it gives away a locked contact
        and had no more than two of them. */
    lemma DonorService(before: Table, after: Table, gw: string, donor: string, sat: string)
      requires Transfer(before, after, gw, donor, sat)
      ensures KeepsService(before, after) <==> !(Locked(sat, donor) && |LockedSats(before[donor], donor)| <= 2)
    {
      var was, now := LockedSats(before[donor], donor), LockedSats(after[donor], donor);
      assert now == was - {sat};
      assert LockedSats(before[gw], gw) <= LockedSats(after[gw], gw);
      SubsetSize(LockedSats(before[gw], gw), LockedSats(after[gw], gw));
      if Locked(sat, donor) && |was| <= 2 {
        assert sat in was;
        assert Min(2, |was|) > |now|;
      }
    }

    /** Take `sat` from `donor` and give it to `gw`. */
    method HandOver(gw: string, donor: string, sat: string)
      requires Mirrored(held, owners) && gw in choices && gw in held && sat in choices[gw] && sat !in held[gw]
      requires sat in owners && donor in owners[sat]
      modifies this
      ensures Mirrored(held, owners) && held.Keys == old(held).Keys && donor in old(held) && donor != gw
      ensures Transfer(old(held), held, gw, donor, sat)
      ensures |held[donor]| == |old(held)[donor]| - 1 && |held[gw]| == |old(held)[gw]| + 1
      ensures forall g :: g in held && g != gw && g != donor ==> held[g] == old(held)[g]
      ensures Blocked(old(held), old(owners), gw, {}) ==> Denser(old(held), old(owners), held, owners, {})
    {
      hide Mirrored, Blocked, Denser, Transfer, Give, Take;
      TransferMirrored(held, owners, gw, donor, sat);
      if Blocked(held, owners, gw, {}) {
        DenserTransfer(held, owners, gw, donor, sat);
      }
      owners, held := Give(Take(owners, sat, donor), sat, gw), Give(Take(held, donor, sat), gw, sat);
    }

    /** When the search fails, the first visible satellite with an owner of more than
        max(2, count + 1) contacts is taken from that owner. */
    method Donate(gw: string, count: nat) returns (donated: bool)
      requires Mirrored(held, owners) && gw in choices
      modifies this
      ensures Mirrored(held, owners) && held.Keys == old(held).Keys
      ensures !donated ==> held == old(held) && owners == old(owners)
      ensures !donated && "" !in choices ==> NoneRich(held, owners, gw, choices[gw], Max(2, count + 1))
      ensures donated ==> exists donor, sat ::
                && Transfer(old(held), held, gw, donor, sat)
                && |held[donor]| >= Max(2, count + 1)
                && |held[gw]| == |old(held)[gw]| + 1
                && forall g :: g in held && g != gw ==> |held[g]| <= |old(held)[g]|
      ensures (forall g :: g in old(held) ==> |old(held)[g]| <= Max(2, count + 1)) ==> !donated
      ensures forall g :: g in held ==> |held[g]| >= |old(held)[g]| || |held[g]| >= count + 1
      ensures Blocked(old(held), old(owners), gw, {}) ==> Denser(old(held), old(owners), held, owners, {})
    {
      hide Mirrored, Transfer, Give, Take, Sorted, Less, Blocked, Denser;
      DenserSame(held, owners, {});
      MirroredKeys(held, owners);
      LessLinear();
      for i := 0 to |choices[gw]|
        invariant held == old(held) && owners == old(owners)
        invariant "" !in choices ==> NoneRich(held, owners, gw, choices[gw][..i], Max(2, count + 1))
      {
        var sat := choices[gw][i];
        assert choices[gw][..i + 1] == choices[gw][..i] + [sat];
        if sat in held[gw] {
          continue;
        }
        Visible(gw, i);
        var donor := FirstRich(Sorted(owners[sat], Less), Max(2, count + 1));
        if donor.Some? && donor.value != "" {
          HandOver(gw, donor.value, sat);
          return true;
        }
      }
      assert choices[gw][..|choices[gw]|] == choices[gw];
      return false;
    }

    lemma DenserTransfer(a: Table, o: Table, gw: string, donor: string, sat: string)
      requires Mirrored(a, o) && gw in choices && sat in choices[gw] && gw in a && sat !in a[gw]
      requires sat in o && donor in o[sat] && donor in a && donor != gw && Blocked(a, o, gw, {})
      ensures Denser(a, o, Give(Take(a, donor, sat), gw, sat), Give(Take(o, sat, donor), sat, gw), {})
    {
      DropMirrored(a, o, sat, donor);
      Untaken(a, o, gw, sat);
      DenserSame(Take(a, donor, sat), Take(o, sat, donor), {});
      DenserDisplaces(a, o, Take(a, donor, sat), Take(o, sat, donor), gw, sat, donor);
    }

    /** In round `k` the sites `order[..i]` have been served: each of them has at least `k + 1` contacts and each
        other site at least `k`, unless no satellite in its sight has a free terminal. */
    ghost predicate RoundFloor(a: Table, o: Table, k: nat, order: seq<string>, i: nat) {
      forall j :: 0 <= j < |order| ==>
        && order[j] in a && order[j] in choices
        && (|a[order[j]]| >= (if j < i then k + 1 else k) || Blocked(a, o, order[j], {}))
    }

    lemma FloorStarts(a: Table, o: Table, order: seq<string>)
      requires a.Keys == choices.Keys && Listed(order)
      ensures RoundFloor(a, o, 0, order, 0)
    {
    }

    lemma FloorNext(a: Table, o: Table, k: nat, order: seq<string>)
      requires RoundFloor(a, o, k, order, |order|)
      ensures RoundFloor(a, o, k + 1, order, 0)
    {
    }

    lemma FloorServed(a: Table, o: Table, a': Table, o': Table, k: nat, order: seq<string>, i: nat)
      requires i < |order| && a'.Keys == a.Keys && RoundFloor(a, o, k, order, i) && Denser(a, o, a', o', {})
      requires forall g :: g in a ==> |a'[g]| >= |a[g]| || |a'[g]| >= k + 1
      requires |a'[order[i]]| > |a[order[i]]| || |a'[order[i]]| >= k + 1 || Blocked(a', o', order[i], {})
      ensures RoundFloor(a', o', k, order, i + 1)
    {
      hide Blocked, Denser;
      forall j | 0 <= j < |order|
        ensures order[j] in a' && (|a'[order[j]]| >= (if j < i + 1 then k + 1 else k) || Blocked(a', o', order[j], {}))
      {
        if Blocked(a, o, order[j], {}) {
          BlockedStays(a, o, a', o', order[j], {});
        }
      }
    }

    lemma AugmentedCounts(a: Table, a': Table, gw: string)
      requires Augments(a, a', gw)
      ensures a'.Keys == a.Keys && gw in a && |a'[gw]| == |a[gw]| + 1 && forall g :: g in a ==> |a'[g]| >= |a[g]|
      ensures forall g :: g in a && g != gw ==> |a'[g]| == |a[g]|
    {
    }

    /** The first of `sites` with more than `spare` contacts. */
    method FirstRich(sites: seq<string>, spare: nat) returns (donor: Option<string>)
      requires forall g :: g in sites ==> g in held
      ensures donor.Some? ==> donor.value in sites && |held[donor.value]| > spare
      ensures donor.None? ==> forall g :: g in sites ==> |held[g]| <= spare
    {
      for i := 0 to |sites|
        invariant forall j :: 0 <= j < i ==> |held[sites[j]]| <= spare
      {
        if |held[sites[i]]| > spare {
          return Some(sites[i]);
        }
      }
      return None;
    }

    /** In round `k` the sites `order[..i]` have been served: each of them has `k + 1` contacts and
        each other site `k`, unless it is saturated with fewer. */
    ghost predicate RoundState(a: Table, k: nat, order: seq<string>, i: nat) {
      forall j :: 0 <= j < |order| ==>
        && order[j] in a
        && |a[order[j]]| <= (if j < i then k + 1 else k)
        && (|a[order[j]]| == (if j < i then k + 1 else k) || Saturated(Contacts(a), Eligible(), limit, order[j]))
    }

    ghost predicate Listed(order: seq<string>) {
      forall g :: g in order <==> g in choices
    }

    lemma RoundBegins(a: Table, o: Table, order: seq<string>)
      requires Mirrored(a, o) && Contacts(a) == {} && Listed(order)
      ensures RoundState(a, 0, order, 0)
    {
      Unused(a, o);
      forall g | g in a ensures |a[g]| == 0 {
        assert forall s | s in a[g] :: Contact(s, g) in Contacts(a);
      }
    }

    lemma RoundNext(a: Table, k: nat, order: seq<string>)
      requires RoundState(a, k, order, |order|)
      ensures RoundState(a, k + 1, order, 0)
    {
    }

    lemma RoundServed(a: Table, o: Table, a': Table, o': Table, k: nat, order: seq<string>, i: nat)
      requires Mirrored(a, o) && Mirrored(a', o') && Listed(order) && i < |order|
      requires RoundState(a, k, order, i) && Augments(a, a', order[i])
      requires forall j, l :: 0 <= j < l < |order| ==> order[j] != order[l]
      ensures RoundState(a', k, order, i + 1)
    {
      hide Saturated, Contacts, Mirrored;
      forall j | 0 <= j < |order|
        ensures Saturated(Contacts(a), Eligible(), limit, order[j]) ==>
                  Saturated(Contacts(a'), Eligible(), limit, order[j]) && |a'[order[j]]| == |a[order[j]]|
      {
        if Saturated(Contacts(a), Eligible(), limit, order[j]) {
          StaysSaturated(a, o, a', o', order[i], order[j]);
        }
      }
    }

    lemma StaysSaturated(a: Table, o: Table, a': Table, o': Table, gw: string, g: string)
      requires Mirrored(a, o) && Mirrored(a', o') && Augments(a, a', gw) && g in choices
      requires Saturated(Contacts(a), Eligible(), limit, g)
      ensures Saturated(Contacts(a'), Eligible(), limit, g) && |a'[g]| == |a[g]|
    {
      hide Mirrored, Saturated, Contacts, Row, Feasible;
      MirroredKeys(a, o);
      MirroredFeasible(a, o);
      MirroredFeasible(a', o');
      forall h ensures |Row(Contacts(a), h)| <= |Row(Contacts(a'), h)| {
        RowsGrow(a, a', gw, h);
      }
      SaturatedPersists(Contacts(a), Contacts(a'), Eligible(), limit, g);
      RowSize(a, g);
      RowSize(a', g);
    }

    lemma RowsGrow(a: Table, a': Table, gw: string, h: string)
      requires Augments(a, a', gw)
      ensures |Row(Contacts(a), h)| <= |Row(Contacts(a'), h)|
    {
      if h in a {
        RowSize(a, h);
        RowSize(a', h);
      } else {
        assert Row(Contacts(a), h) == {};
      }
    }

    lemma RoundStuck(a: Table, o: Table, k: nat, order: seq<string>, i: nat, visited: set<string>)
      requires Mirrored(a, o) && Listed(order) && i < |order| && order[i] in choices && selected == map[]
      requires RoundState(a, k, order, i)
      requires Explored(a, o, visited, visited) && Reached(a, order[i], visited)
      ensures RoundState(a, k, order, i + 1)
    {
      var gw := order[i];
      if |a[gw]| == k {
        var gs := SearchCertificate(a, o, gw, visited);
        assert Established(a) == {};
        forall h | h in gs ensures |Row(Contacts(a), h)| <= |Row(Contacts(a), gw)| + 1 {
          RowSize(a, gw);
          RowSize(a, h);
          assert h in order;
        }
        assert SaturatedBy(Contacts(a), Eligible(), limit, gw, gs, visited);
      }
    }

    lemma RoundDue(a: Table, k: nat, order: seq<string>, i: nat)
      requires i < |order| && RoundState(a, k, order, i)
      ensures order[i] in a && |a[order[i]]| <= k
    {
    }

    lemma RoundSpread(a: Table, k: nat, order: seq<string>, i: nat)
      requires RoundState(a, k, order, i) && Listed(order) && a.Keys == choices.Keys
      ensures forall g :: g in a ==> |a[g]| <= Max(2, k + 1)
    {
      forall g | g in a ensures |a[g]| <= k + 1 {
        assert g in order;
      }
    }

    ghost predicate NoneLost(a: Table, b: Table) {
      a.Keys == b.Keys && forall g :: g in a ==> |a[g]| <= |b[g]|
    }

    lemma NothingChanged(a: Table)
      ensures KeepsService(a, a) && NoneLost(a, a)
    {
    }

    lemma Progress(a: Table, b: Table, c: Table)
      requires KeepsService(a, b) && NoneLost(a, b) && KeepsService(b, c) && NoneLost(b, c)
      ensures KeepsService(a, c) && NoneLost(a, c)
    {
      KeepsServiceChains(a, b, c);
    }

    lemma AugmentsWithin(a: Table, b: Table, gw: string)
      requires Augments(a, b, gw) && WithinBudget(a) && |a[gw]| < budget
      ensures WithinBudget(b) && NoneLost(a, b)
    {
    }

    /** One turn of site `gw` in round `count`: a site with more than `count` contacts is passed over, nobody gains
        beyond `count + 1`, nobody falls below that, a site without a rich neighbour takes nothing away and one with
        a rich neighbour is served. */
    ghost predicate Turned(a: Table, o: Table, a': Table, o': Table, gw: string, count: nat, donated: bool) {
      && gw in choices && a.Keys == a'.Keys == choices.Keys
      && (|a[gw]| > count ==> a' == a && o' == o && !donated)
      && ((forall g :: g in a ==> |a[g]| <= Max(2, count + 1)) ==> !donated)
      && (|a[gw]| <= count && "" !in choices ==>
            |a'[gw]| > |a[gw]| || NoneRich(a, o, gw, choices[gw], Max(2, count + 1)))
      && (forall g :: g in a ==> |a'[g]| <= Max(|a[g]|, count + 1))
      && (forall g :: g in a ==> |a'[g]| >= |a[g]| || |a'[g]| >= count + 1)
    }

    lemma TurnPassed(a: Table, o: Table, gw: string, count: nat)
      requires gw in choices && a.Keys == choices.Keys && |a[gw]| > count
      ensures Turned(a, o, a, o, gw, count, false)
    {
    }

    lemma TurnServed(a: Table, o: Table, a': Table, o': Table, gw: string, count: nat)
      requires gw in choices && a.Keys == choices.Keys && |a[gw]| <= count && Augments(a, a', gw)
      ensures Turned(a, o, a', o', gw, count, false)
    {
    }

    lemma TurnGiven(a: Table, o: Table, a': Table, o': Table, gw: string, count: nat, donated: bool)
      requires gw in choices && a.Keys == a'.Keys == choices.Keys && |a[gw]| <= count
      requires !donated ==> a' == a && ("" !in choices ==> NoneRich(a, o, gw, choices[gw], Max(2, count + 1)))
      requires donated ==> |a'[gw]| == |a[gw]| + 1 && forall g :: g in a && g != gw ==> |a'[g]| <= |a[g]|
      requires (forall g :: g in a ==> |a[g]| <= Max(2, count + 1)) ==> !donated
      requires forall g :: g in a ==> |a'[g]| >= |a[g]| || |a'[g]| >= count + 1
      ensures Turned(a, o, a', o', gw, count, donated)
    {
    }

    /** One site in one round. */
    method Serve(order: seq<string>, i: nat, count: nat, ghost fair: bool) returns (ghost donated: bool)
      requires Mirrored(held, owners) && WithinBudget(held) && count < budget
      requires Listed(order) && i < |order| && forall j, l :: 0 <= j < l < |order| ==> order[j] != order[l]
      requires fair ==> selected == map[] && RoundState(held, count, order, i)
      requires RoundFloor(held, owners, count, order, i)
      modifies this
      ensures Mirrored(held, owners) && WithinBudget(held)
      ensures !donated ==> KeepsService(old(held), held) && NoneLost(old(held), held)
      ensures Turned(old(held), old(owners), held, owners, order[i], count, donated)
      ensures fair ==> !donated && RoundState(held, count, order, i + 1)
      ensures RoundFloor(held, owners, count, order, i + 1)
    {
      hide Mirrored, RoundState, Saturated, Explored, Reached, KeepsService, NoneLost, Augments, Transfer, NoBetter,
           Sats, Contacts, RoundFloor, Denser, Blocked, NoneRich, Turned;
      MirroredKeys(held, owners);
      NothingChanged(held);
      DenserSame(held, owners, {});
      var gw := order[i];
      assert gw in choices;
      if fair {
        RoundDue(held, count, order, i);
      }
      if |held[gw]| > count {
        FloorServed(held, owners, held, owners, count, order, i);
        TurnPassed(held, owners, gw, count);
        return false;
      }
      ghost var a, o := held, owners;
      var ok, visited := Allocate(gw, {});
      if ok {
        AugmentsWithin(a, held, gw);
        AugmentedCounts(a, held, gw);
        TurnServed(a, o, held, owners, gw, count);
        FloorServed(a, o, held, owners, count, order, i);
        if fair {
          RoundServed(a, o, held, owners, count, order, i);
        }
        return false;
      }
      if fair {
        assert visited - {} == visited;
        RoundSpread(held, count, order, i);
        RoundStuck(held, owners, count, order, i, visited);
      }
      SearchBlocked(held, owners, gw, {}, visited);
      donated := Donate(gw, count);
      TurnGiven(a, o, held, owners, gw, count, donated);
      BlockedStays(a, o, held, owners, gw, {});
      FloorServed(a, o, held, owners, count, order, i);
    }

    ghost predicate FairlyShared(a: Table) {
      forall g :: g in choices ==> g in a && (|a[g]| == budget || Saturated(Contacts(a), Eligible(), limit, g))
    }

    lemma FloorEnds(a: Table, o: Table, order: seq<string>)
      requires RoundFloor(a, o, budget, order, 0) && Listed(order)
      ensures forall g :: g in choices ==> g in a && (|a[g]| >= budget || Blocked(a, o, g, {}))
    {
      hide Blocked;
      forall g | g in choices ensures g in a && (|a[g]| >= budget || Blocked(a, o, g, {})) {
        assert g in order;
      }
    }

    lemma RoundEnds(a: Table, order: seq<string>)
      requires RoundState(a, budget, order, 0) && Listed(order)
      ensures FairlyShared(a)
    {
      forall g | g in choices ensures g in a && (|a[g]| == budget || Saturated(Contacts(a), Eligible(), limit, g)) {
        assert g in order;
      }
    }

    /** The sites with the fewest alternatives first. */
    method RoundOrder() returns (order: seq<string>)
      ensures Listed(order) && forall j, l :: 0 <= j < l < |order| ==> order[j] != order[l]
    {
      order := Sorted(choices.Keys, FewestChoicesFirst());
      OrderedDistinct(order, FewestChoicesFirst());
    }

    /** No site starts with more than two contacts and more than one contact above another site. */
    ghost predicate Balanced(seed: Table) {
      forall g, h :: g in seed && h in seed ==> |seed[g]| <= Max(2, |seed[h]| + 1)
    }

    /** In round `count` nobody has lost a contact and nobody has gained beyond `count + 1` of them. */
    ghost predicate Steady(seed: Table, a: Table, count: nat) {
      NoneLost(seed, a) && forall g :: g in a ==> |a[g]| <= Max(|seed[g]|, count + 1)
    }

    lemma SteadyStarts(seed: Table)
      ensures Steady(seed, seed, 0)
    {
    }

    lemma SteadyNext(seed: Table, a: Table, count: nat)
      requires Steady(seed, a, count)
      ensures Steady(seed, a, count + 1)
    {
    }

    /** From a balanced start no site is ever rich enough to become a donor. */
    lemma BalancedTurn(seed: Table, a: Table, o: Table, a': Table, o': Table, gw: string, count: nat, donated: bool)
      requires Balanced(seed) && Steady(seed, a, count) && Turned(a, o, a', o', gw, count, donated)
      requires !donated ==> NoneLost(a, a')
      ensures !donated && Steady(seed, a', count)
    {
    }

    /** Two sites, one terminal per satellite. `poor` holds everything it sees except `x`; `rich` holds `x` and more
        than max(2, n + 1) contacts where `poor` has n, but no more than two locked ones, one of them `x`. */
    ghost predicate CorneredBy(a: Table, poor: string, rich: string, x: string) {
      && limit == 1 && choices.Keys == {poor, rich} && poor != rich && "" !in choices
      && poor in a && rich in a && |a[rich]| > Max(2, |a[poor]| + 1)
      && x in a[rich] && x in choices[poor] && x !in a[poor]
      && (forall s :: s in choices[poor] ==> s == x || s in a[poor])
      && Locked(x, rich) && |LockedSats(a[rich], rich)| <= 2
      && (forall s :: s in choices[rich] && Locked(s, rich) ==> s in a[rich])
    }

    ghost predicate Cornered(a: Table) {
      exists poor, rich, x :: CorneredBy(a, poor, rich, x)
    }

    /** Some cornered site has got more than it started with. */
    ghost predicate Yielded(seed: Table, a: Table) {
      exists poor, rich, x :: CorneredBy(seed, poor, rich, x) && poor in a && |a[poor]| > |seed[poor]|
    }

    lemma YieldedSame(seed: Table, a: Table, a': Table)
      requires Yielded(seed, a) && a'.Keys == a.Keys && forall g :: g in a ==> |a'[g]| == |a[g]|
      ensures Yielded(seed, a')
    {
      var poor, rich, x :| CorneredBy(seed, poor, rich, x) && poor in a && |a[poor]| > |seed[poor]|;
      assert CorneredBy(seed, poor, rich, x) && |a'[poor]| > |seed[poor]|;
    }

    /** What a cornered site gains is the locked contact of the other one. */
    lemma YieldedBreaks(seed: Table, a: Table, o: Table)
      requires Mirrored(a, o) && Yielded(seed, a)
      ensures !KeepsService(seed, a)
    {
      var poor, rich, x :| CorneredBy(seed, poor, rich, x) && poor in a && |a[poor]| > |seed[poor]|;
      assert a[poor] <= seed[poor] + {x};
      assert x in a[poor] by {
        if x !in a[poor] {
          SubsetSize(a[poor], seed[poor]);
          assert false;
        }
      }
      assert x !in a[rich] by {
        if x in a[rich] {
          SubsetSize({poor, rich}, o[x]);
          assert false;
        }
      }
      var was, now := LockedSats(seed[rich], rich), LockedSats(a[rich], rich);
      assert x in was && now <= was - {x};
      SubsetSize(now, was - {x});
    }

    /** Up to the turn of `poor` in the round of its own count nothing happens; from then on it has gained. */
    ghost predicate Cornering(seed: Table, places: Table, a: Table, o: Table, poor: string, count: nat,
                              order: seq<string>, i: nat)
      requires i <= |order|
    {
      && poor in seed && poor in a
      && if count < |seed[poor]| || (count == |seed[poor]| && poor !in order[..i]) then a == seed && o == places
         else |a[poor]| > |seed[poor]|
    }

    lemma CorneringTurn(seed: Table, places: Table, a: Table, o: Table, a': Table, o': Table, poor: string,
                        rich: string, x: string, count: nat, order: seq<string>, i: nat, donated: bool)
      requires Mirrored(seed, places) && CorneredBy(seed, poor, rich, x) && i < |order| && Listed(order)
      requires forall j, l :: 0 <= j < l < |order| ==> order[j] != order[l]
      requires Cornering(seed, places, a, o, poor, count, order, i)
      requires Turned(a, o, a', o', order[i], count, donated)
      ensures Cornering(seed, places, a', o', poor, count, order, i + 1)
    {
      hide NoneRich, Locked, LockedSats, Mirrored;
      assert order[..i + 1] == order[..i] + [order[i]];
      assert order[i] in order;
      if a == seed && o == places {
        RichNeighbour(seed, places, poor, rich, x, count);
      }
    }

    lemma RichNeighbour(a: Table, o: Table, poor: string, rich: string, x: string, count: nat)
      requires Mirrored(a, o) && CorneredBy(a, poor, rich, x)
      ensures count <= |a[poor]| ==> !NoneRich(a, o, poor, choices[poor], Max(2, count + 1))
    {
      var k :| 0 <= k < |choices[poor]| && choices[poor][k] == x;
      assert rich in o[choices[poor][k]];
    }

    lemma CorneringStarts(seed: Table, places: Table, poor: string, order: seq<string>)
      requires poor in seed
      ensures Cornering(seed, places, seed, places, poor, 0, order, 0)
    {
    }

    lemma CorneringNext(seed: Table, places: Table, a: Table, o: Table, poor: string, count: nat, order: seq<string>)
      requires poor in order && Cornering(seed, places, a, o, poor, count, order, |order|)
      ensures Cornering(seed, places, a, o, poor, count + 1, order, 0)
    {
      assert order[..|order|] == order;
    }

    lemma CorneringEnds(seed: Table, places: Table, a: Table, o: Table, poor: string, rich: string, x: string,
                        order: seq<string>)
      requires CorneredBy(seed, poor, rich, x) && WithinBudget(seed)
      requires Cornering(seed, places, a, o, poor, budget, order, 0)
      ensures Yielded(seed, a)
    {
    }

    lemma CorneredSites(a: Table, order: seq<string>) returns (cornered: bool, poor: string, rich: string, x: string)
      requires Listed(order)
      ensures cornered <==> Cornered(a)
      ensures cornered ==> CorneredBy(a, poor, rich, x) && poor in a && poor in order
    {
      cornered, poor, rich, x := Cornered(a), "", "", "";
      if cornered {
        poor, rich, x :| CorneredBy(a, poor, rich, x);
        assert poor in choices;
      }
    }

    /** One contact per site and round, moved along augmenting paths where that frees a terminal.
        Established service survives unless the donor exchange is used. From a balanced start it never is, and a
        cornered site always uses it. Without established contacts every site ends with its full budget or saturated. */
    method Rounds() returns (ghost donated: bool)
      requires Mirrored(held, owners) && WithinBudget(held)
      modifies this
      ensures Mirrored(held, owners) && WithinBudget(held)
      ensures !donated ==> KeepsService(old(held), held) && NoneLost(old(held), held)
      ensures Balanced(old(held)) ==> !donated
      ensures Cornered(old(held)) ==> Yielded(old(held), held)
      ensures selected == map[] && Contacts(old(held)) == {} ==> !donated && FairlyShared(held)
      ensures forall g :: g in choices ==> g in held && (|held[g]| >= budget || Blocked(held, owners, g, {}))
    {
      hide *;
      MirroredKeys(held, owners);
      var order := RoundOrder();
      ghost var fair := selected == map[] && Contacts(held) == {};
      if fair {
        RoundBegins(held, owners, order);
      }
      ghost var seed, places := held, owners;
      ghost var cornered, poor, rich, x := CorneredSites(held, order);
      donated := false;
      NothingChanged(held);
      FloorStarts(held, owners, order);
      SteadyStarts(held);
      if cornered {
        CorneringStarts(held, owners, poor, order);
      }
      for count := 0 to budget
        invariant Mirrored(held, owners) && WithinBudget(held)
        invariant RoundFloor(held, owners, count, order, 0)
        invariant !donated ==> KeepsService(seed, held) && NoneLost(seed, held)
        invariant Balanced(seed) ==> !donated && Steady(seed, held, count)
        invariant cornered ==> Cornering(seed, places, held, owners, poor, count, order, 0)
        invariant fair ==> !donated && RoundState(held, count, order, 0)
      {
        for i := 0 to |order|
          invariant Mirrored(held, owners) && WithinBudget(held)
          invariant RoundFloor(held, owners, count, order, i)
          invariant !donated ==> KeepsService(seed, held) && NoneLost(seed, held)
          invariant Balanced(seed) ==> !donated && Steady(seed, held, count)
          invariant cornered ==> Cornering(seed, places, held, owners, poor, count, order, i)
          invariant fair ==> !donated && RoundState(held, count, order, i)
        {
          ghost var before, carried := held, owners;
          ghost var gave := Serve(order, i, count, fair);
          if !donated && !gave {
            Progress(seed, before, held);
          }
          if Balanced(seed) {
            BalancedTurn(seed, before, carried, held, owners, order[i], count, gave);
          }
          if cornered {
            CorneringTurn(seed, places, before, carried, held, owners, poor, rich, x, count, order, i, gave);
          }
          donated := donated || gave;
        }
        FloorNext(held, owners, count, order);
        if Balanced(seed) {
          SteadyNext(seed, held, count);
        }
        if cornered {
          CorneringNext(seed, places, held, owners, poor, count, order);
        }
        if fair {
          RoundNext(held, count, order);
        }
      }
      FloorEnds(held, owners, order);
      if cornered {
        CorneringEnds(seed, places, held, owners, poor, rich, x, order);
      }
      if fair {
        RoundEnds(held, order);
      }
    }

    /** The expiring satellites that site `gw` holds. */
    function Expiring(a: Table, gw: string, expiring: set<Contact>): set<string>
      requires gw in a
    {
      set s | s in a[gw] && Contact(s, gw) in expiring
    }

    lemma DropLockedKeepsService(a: Table, s: string, g: string)
      requires g in a && s in a[g] && |LockedSats(a[g], g)| >= 3
      ensures KeepsService(a, Take(a, g, s))
    {
      DropKeepsService(a, s, g);
    }

    lemma Replaced(a: Table, o: Table, a': Table, o': Table, gw: string, s: string, expiring: set<Contact>)
      requires Mirrored(a, o) && Mirrored(a', o') && gw in choices && s in a[gw] && Contact(s, gw) in expiring
      requires Augments(Take(a, gw, s), a', gw) && KeepsService(Take(a, gw, s), a')
      requires |LockedSats(a[gw], gw)| >= 3
      requires forall t :: t in choices[gw] && Contact(t, gw) in expiring ==>
                   t in o && t in o' && o'[t] == Take(o, s, gw)[t]
      ensures KeepsService(a, a') && a'.Keys == a.Keys && (forall g :: g in a ==> |a'[g]| == |a[g]|)
      ensures Expiring(a', gw, expiring) == Expiring(a, gw, expiring) - {s}
    {
      hide Mirrored, KeepsService, LockedSats, Locked, Expiring;
      MirroredKeys(a, o);
      DropLockedKeepsService(a, s, gw);
      KeepsServiceChains(a, Take(a, gw, s), a');
      ExpiringDrops(a, o, a', o', gw, s, expiring);
    }

    lemma ExpiringDrops(a: Table, o: Table, a': Table, o': Table, gw: string, s: string, expiring: set<Contact>)
      requires Mirrored(a, o) && Mirrored(a', o') && gw in choices && s in a[gw] && Contact(s, gw) in expiring
      requires forall t :: t in choices[gw] && Contact(t, gw) in expiring ==>
                   t in o && t in o' && o'[t] == Take(o, s, gw)[t]
      ensures Expiring(a', gw, expiring) == Expiring(a, gw, expiring) - {s}
    {
      forall t ensures t in Expiring(a', gw, expiring) <==> t in Expiring(a, gw, expiring) - {s} {
        if t in choices[gw] && Contact(t, gw) in expiring {
          SameSide(a, o, t, gw);
          SameSide(a', o', t, gw);
        }
      }
    }

    lemma SameSide(a: Table, o: Table, s: string, g: string)
      requires Mirrored(a, o) && g in a && s in o
      ensures s in a[g] <==> g in o[s]
    {
    }

    /** The satellites that some site is about to lose. */
    ghost function Departing(expiring: set<Contact>): set<string> {
      set c | c in expiring :: c.sat
    }

    lemma DenserReplaces(a: Table, o: Table, a': Table, o': Table, gw: string, leaving: string, expiring: set<Contact>)
      requires gw in a && leaving in o && Contact(leaving, gw) in expiring
      requires Denser(Take(a, gw, leaving), Take(o, leaving, gw), a', o', {})
      ensures Denser(a, o, a', o', Departing(expiring))
    {
      assert leaving in Departing(expiring);
      forall s | s in o && s !in Departing(expiring) ensures s in o' && |o[s]| <= |o'[s]| {
        assert Take(o, leaving, gw)[s] == o[s];
      }
      forall g, s | g in a && s in a[g] && s !in Departing(expiring)
        ensures (g in a' && s in a'[g]) || (s in o' && |o'[s]| >= limit)
      {
        assert s in Take(a, gw, leaving)[g];
      }
    }

    lemma DepartingSeen(a: Table, o: Table, gw: string, leaving: string, seen: set<string>, expiring: set<Contact>)
      requires gw in choices && gw in a && leaving in o && Contact(leaving, gw) in expiring
      requires seen == set s | s in choices[gw] && Contact(s, gw) in expiring
      requires Blocked(Take(a, gw, leaving), Take(o, leaving, gw), gw, seen)
      ensures Blocked(a, o, gw, Departing(expiring))
    {
      assert leaving in Departing(expiring);
      forall s | s in choices[gw] && s !in Departing(expiring) ensures s in a[gw] || (s in o && |o[s]| >= limit) {
        assert s !in seen && s != leaving;
        assert s in Take(o, leaving, gw) ==> Take(o, leaving, gw)[s] == o[s];
      }
    }

    /** Trade one departing contact of a site with three locked ones for a lasting one. */
    method Succeed(gw: string, leaving: string, expiring: set<Contact>) returns (ok: bool)
      requires Mirrored(held, owners) && gw in choices
      requires leaving in held[gw] && Contact(leaving, gw) in expiring && |LockedSats(held[gw], gw)| >= 3
      modifies this
      ensures Mirrored(held, owners) && held.Keys == old(held).Keys
      ensures KeepsService(old(held), held)
      ensures forall g :: g in held ==> |held[g]| == |old(held)[g]|
      ensures ok ==> Expiring(held, gw, expiring) == Expiring(old(held), gw, expiring) - {leaving}
      ensures !ok ==> held == old(held) && owners == old(owners)
      ensures !ok ==> Blocked(held, owners, gw, Departing(expiring))
      ensures Denser(old(held), old(owners), held, owners, Departing(expiring))
    {
      hide Mirrored, Augments, KeepsService, Explored, Reached, NoBetter, Give, Take, LockedSats, Expiring, Denser,
           Blocked, Departing;
      NothingChanged(held);
      DenserSame(held, owners, Departing(expiring));
      MirroredKeys(held, owners);
      ghost var a, o := held, owners;
      OwnerOf(held, owners, leaving, gw);
      DropMirrored(held, owners, leaving, gw);
      owners, held := Take(owners, leaving, gw), Take(held, gw, leaving);
      var seen := set s | s in choices[gw] && Contact(s, gw) in expiring;
      var visited;
      ok, visited := Allocate(gw, seen);
      if ok {
        Replaced(a, o, held, owners, gw, leaving, expiring);
        DenserReplaces(a, o, held, owners, gw, leaving, expiring);
      } else {
        SearchBlocked(held, owners, gw, seen, visited);
        DepartingSeen(a, o, gw, leaving, seen, expiring);
        owners, held := Give(owners, leaving, gw), Give(held, gw, leaving);
      }
    }

    lemma OwnerOf(a: Table, o: Table, s: string, g: string)
      requires Mirrored(a, o) && g in a && s in a[g]
      ensures s in o && g in o[s]
    {
    }

    /** Acquire a successor before a predicted departure, at most one per site. */
    method Successors(expiring: set<Contact>)
      requires Mirrored(held, owners) && WithinBudget(held)
      modifies this
      ensures Mirrored(held, owners) && WithinBudget(held)
      ensures KeepsService(old(held), held)
      ensures held.Keys == old(held).Keys && forall g :: g in held ==> |held[g]| == |old(held)[g]|
      ensures (forall c :: c !in selected) ==> held == old(held)
      ensures Denser(old(held), old(owners), held, owners, Departing(expiring))
    {
      hide Mirrored, KeepsService, Sorted, Less, Denser, Departing, Blocked;
      LessLinear();
      NothingChanged(held);
      DenserSame(held, owners, Departing(expiring));
      var order := Sorted(choices.Keys, Less);
      for i := 0 to |order|
        invariant Mirrored(held, owners)
        invariant KeepsService(old(held), held)
        invariant held.Keys == old(held).Keys && forall g :: g in held ==> |held[g]| == |old(held)[g]|
        invariant (forall c :: c !in selected) ==> held == old(held)
        invariant Denser(old(held), old(owners), held, owners, Departing(expiring))
      {
        var gw := order[i];
        MirroredKeys(held, owners);
        if |LockedSats(held[gw], gw)| < 3 {
          continue;
        }
        var leaving := FirstExpiring(gw, expiring);
        if leaving.None? {
          continue;
        }
        ghost var before, carried := held, owners;
        var ok := Succeed(gw, leaving.value, expiring);
        KeepsServiceChains(old(held), before, held);
        DenserChains(old(held), old(owners), before, carried, held, owners, Departing(expiring));
        assert exists s :: s in LockedSats(before[gw], gw);
      }
    }

    method FirstExpiring(gw: string, expiring: set<Contact>) returns (s: Option<string>)
      requires gw in choices && gw in held
      ensures s.Some? ==> s.value in held[gw] && Contact(s.value, gw) in expiring
      ensures s.None? ==> forall t :: t in choices[gw] ==> t !in held[gw] || Contact(t, gw) !in expiring
    {
      for i := 0 to |choices[gw]|
        invariant forall j :: 0 <= j < i ==> choices[gw][j] !in held[gw] || Contact(choices[gw][j], gw) !in expiring
      {
        var t := choices[gw][i];
        if t in held[gw] && Contact(t, gw) in expiring {
          return Some(t);
        }
      }
      return None;
    }

    /** No site can be served better within the satellite limits without taking from a site that
        ends up no better served. */
    ghost predicate MaxMinFair(pairs: set<Contact>) {
      forall b, g :: Feasible(b, Eligible(), limit) && |Row(b, g)| <= budget && |Row(b, g)| > |Row(pairs, g)| ==>
        exists h :: |Row(b, h)| < |Row(pairs, h)| && |Row(pairs, h)| <= |Row(pairs, g)| + 1
    }

    /** No allocation within both budgets has more contacts. */
    ghost predicate Maximum(pairs: set<Contact>) {
      forall b :: Feasible(b, Eligible(), limit) && (forall g :: |Row(b, g)| <= budget) ==> |b| <= |pairs|
    }

    lemma FairlySharedIsOptimal(a: Table)
      requires FairlyShared(a)
      ensures MaxMinFair(Contacts(a)) && Maximum(Contacts(a))
    {
      var pairs := Contacts(a);
      forall g | g in choices ensures |Row(pairs, g)| == budget || Saturated(pairs, Eligible(), limit, g) {
        RowSize(a, g);
      }
      forall b, g | Feasible(b, Eligible(), limit) && |Row(b, g)| <= budget && |Row(b, g)| > |Row(pairs, g)|
        ensures exists h :: |Row(b, h)| < |Row(pairs, h)| && |Row(pairs, h)| <= |Row(pairs, g)| + 1
      {
        assert g !in choices ==> Row(b, g) == {};
        SaturatedIsFair(pairs, b, Eligible(), limit, g);
      }
      forall b | Feasible(b, Eligible(), limit) && (forall g :: |Row(b, g)| <= budget) ensures |b| <= |pairs| {
        SaturatedIsMaximum(pairs, b, Eligible(), limit, choices.Keys, budget);
      }
    }

    /** No eligible contact could simply be added, except with the satellites in `x`: it is chosen, its site has
        its budget, or its satellite is full. */
    ghost predicate Packed(pairs: set<Contact>, x: set<string>) {
      forall c :: c in Eligible() ==>
            c in pairs || |Row(pairs, c.gw)| >= budget || |Column(pairs, c.sat)| >= limit || c.sat in x
    }

    lemma StaysPacked(a: Table, o: Table, a': Table, o': Table, x: set<string>)
      requires Mirrored(a', o') && Denser(a, o, a', o', x) && a'.Keys == a.Keys
               && forall g :: g in a ==> |a'[g]| == |a[g]|
      requires forall g :: g in choices ==> g in a && (|a[g]| >= budget || Blocked(a, o, g, {}))
      ensures Packed(Contacts(a'), x)
    {
      hide Denser, Column, Row, Mirrored;
      forall c | c in Eligible()
        ensures c in Contacts(a') || |Row(Contacts(a'), c.gw)| >= budget || |Column(Contacts(a'), c.sat)| >= limit
                || c.sat in x
      {
        RowSize(a', c.gw);
        ColumnSize(a', o', c.sat);
        if |a[c.gw]| < budget {
          BlockedBut(a, o, c.gw, {}, x);
          BlockedStays(a, o, a', o', c.gw, x);
        }
      }
    }

    lemma BudgetRows(a: Table)
      requires WithinBudget(a)
      ensures forall g :: |Row(Contacts(a), g)| <= budget
    {
      forall g ensures |Row(Contacts(a), g)| <= budget {
        if g in a {
          RowSize(a, g);
        } else {
          assert Row(Contacts(a), g) == {};
        }
      }
    }

    /** The satellites `g` was connected to in the previous frame and still sees. */
    ghost function Previous(g: string): set<string>
      requires g in choices
    {
      set s | s in choices[g] && Contact(s, g) in selected
    }

    /** The still-visible contacts of the previous frame respect the satellite limits. */
    ghost predicate PreviousFits() {
      forall s :: s in Sats() ==> |set g | g in choices && s in Previous(g)| <= limit
    }

    lemma SeedWithinPrevious(a: Table, o: Table, g: string)
      requires Mirrored(a, o) && Contacts(a) <= selected.Keys && g in choices
      ensures a[g] <= Previous(g) && |a[g]| <= |Previous(g)|
    {
      forall s | s in a[g] ensures s in Previous(g) {
        assert Contact(s, g) in Contacts(a);
      }
      SubsetSize(a[g], Previous(g));
    }

    /** What is kept of the previous frame, counted before the call. */
    lemma SeedCounts(a: Table, o: Table, g: string)
      requires Mirrored(a, o) && Contacts(a) <= selected.Keys && WithinBudget(a) && g in choices
      requires Kept(a, o, g, |choices[g]|) && PreviousFits()
      ensures |a[g]| == Min(budget, |Previous(g)|)
    {
      SeedWithinPrevious(a, o, g);
      if |a[g]| < budget {
        forall s | s in Previous(g) ensures s in a[g] {
          if s !in a[g] {
            var k :| 0 <= k < |choices[g]| && choices[g][k] == s;
            PreviousOwners(a, o, g, s);
          }
        }
        assert a[g] == Previous(g);
      }
    }

    lemma PreviousOwners(a: Table, o: Table, g: string, s: string)
      requires Mirrored(a, o) && Contacts(a) <= selected.Keys && g in choices && s in Previous(g) && s !in a[g]
               && PreviousFits()
      ensures s in o && |o[s]| < limit
    {
      var sites := set h | h in choices && s in Previous(h);
      assert s in Sats();
      forall h | h in o[s] ensures h in sites - {g} {
        assert s in a[h];
        SeedWithinPrevious(a, o, h);
      }
      SubsetSize(o[s], sites - {g});
    }

    /** The same as `Balanced`, before the call. */
    ghost predicate PreviousBalanced() {
      forall g, h :: g in choices && h in choices ==>
            Min(budget, |Previous(g)|) <= Max(2, Min(budget, |Previous(h)|) + 1)
    }

    /** No site sees more than two contacts of the previous frame, or those respect the satellite limits and are
        balanced. */
    ghost predicate Undisturbed() {
      (forall g :: g in choices ==> |Previous(g)| <= 2) || (PreviousFits() && PreviousBalanced())
    }

    lemma UndisturbedSeed(a: Table, o: Table)
      requires Mirrored(a, o) && Contacts(a) <= selected.Keys && WithinBudget(a)
      requires forall g :: g in choices ==> Kept(a, o, g, |choices[g]|)
      requires Undisturbed()
      ensures Balanced(a)
    {
      hide Kept, Contacts, PreviousFits, Previous, WithinBudget;
      forall g, h | g in a && h in a ensures |a[g]| <= Max(2, |a[h]| + 1) {
        SeedWithinPrevious(a, o, g);
        if PreviousFits() {
          SeedCounts(a, o, g);
          SeedCounts(a, o, h);
        }
      }
    }

    /** The whole allocation. `seeded` is what was kept of the previous frame. */
    method Pairs(expiring: set<Contact>) returns (pairs: set<Contact>, ghost seeded: Table, ghost places: Table)
      requires Mirrored(held, owners) && Contacts(held) == {}
      modifies this
      ensures Mirrored(held, owners) && pairs == Contacts(held)
      ensures Feasible(pairs, Eligible(), limit) && forall g :: |Row(pairs, g)| <= budget
      ensures Contacts(seeded) <= selected.Keys && Mirrored(seeded, places)
      ensures forall g :: g in choices ==> Kept(seeded, places, g, |choices[g]|)
      ensures PreviousFits() ==> forall g :: g in choices ==> g in seeded && |seeded[g]| == Min(budget, |Previous(g)|)
      ensures Undisturbed() || Balanced(seeded) ==> KeepsService(seeded, held)
      ensures Cornered(seeded) ==> !KeepsService(seeded, held)
      ensures Packed(pairs, Departing(expiring))
      ensures selected == map[] ==> MaxMinFair(pairs) && Maximum(pairs)
    {
      hide Mirrored, WithinBudget, KeepsService, FairlyShared, Feasible, MaxMinFair, Maximum, Contacts, Kept, Denser,
           Blocked, Departing, Packed, Previous, PreviousFits, Undisturbed, Balanced, Cornered, Yielded;
      Seed();
      MirroredKeys(held, owners);
      seeded, places := held, owners;
      assert selected == map[] ==> Contacts(held) == {};
      if Undisturbed() {
        UndisturbedSeed(held, owners);
      }
      if PreviousFits() {
        forall g | g in choices ensures |seeded[g]| == Min(budget, |Previous(g)|) {
          SeedCounts(seeded, places, g);
        }
      }
      ghost var donated := Rounds();
      ghost var shared, carried := held, owners;
      Successors(expiring);
      StaysPacked(shared, carried, held, owners, Departing(expiring));
      if !donated {
        KeepsServiceChains(seeded, shared, held);
      }
      if Cornered(seeded) {
        YieldedSame(seeded, shared, held);
        YieldedBreaks(seeded, held, owners);
      }
      MirroredFeasible(held, owners);
      BudgetRows(held);
      if selected == map[] {
        FairlySharedIsOptimal(held);
      }
      pairs := Contacts(held);
    }
  }
}
