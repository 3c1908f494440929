/** The terminal scheduler: one frame chooses contacts within the terminal budgets, and the
    acquisition history carried from frame to frame decides which of them are operational. */
module Frames {
  import opened Basics
  import opened Allocation
  import Feeder

  /** An eligible pair of one sampling instant, in scheduling order. */
  datatype Candidate = Candidate(isl: bool, a: string, b: string, samePlane: bool)

  datatype Policy = Policy(islTerminals: nat, samePlaneTerminals: nat, feederTerminals: nat,
                           gatewayTerminals: nat, acquisition: real)

  datatype Key = Isl(node: string) | SamePlane(node: string) | Ground(node: string)

  /** What one frame decided. */
  datatype Sample = Sample(offset: real, chosen: set<Contact>)

  // ---- acquisition history -------------------------------------------------------------------

  /** A chosen pair keeps the time since when it has been chosen. */
  function Carry(selected: map<Contact, real>, sample: Sample): map<Contact, real> {
    map p | p in sample.chosen :: if p in selected then selected[p] else sample.offset
  }

  ghost function SelectedAfter(history: seq<Sample>): map<Contact, real> {
    if history == [] then map[] else Carry(SelectedAfter(history[..|history| - 1]), history[|history| - 1])
  }

  ghost predicate Increasing(history: seq<Sample>) {
    forall i, j :: 0 <= i < j < |history| ==> history[i].offset < history[j].offset
  }

  /** The pair was chosen in every frame from `j` to the last one. */
  ghost predicate ChosenSince(history: seq<Sample>, p: Contact, j: nat) {
    j < |history| && forall k :: j <= k < |history| ==> p in history[k].chosen
  }

  ghost predicate Operational(history: seq<Sample>, p: Contact, acquisition: real) {
    && history != []
    && p in SelectedAfter(history)
    && history[|history| - 1].offset - SelectedAfter(history)[p] >= acquisition
  }

  /** The recorded time of a pair is the offset of the frame that began its unbroken span. */
  lemma {:induction false} SinceIsSpanStart(history: seq<Sample>, p: Contact) returns (j: nat)
    requires p in SelectedAfter(history)
    ensures ChosenSince(history, p, j)
    ensures j > 0 ==> p !in history[j - 1].chosen
    ensures SelectedAfter(history)[p] == history[j].offset
  {
    var last := |history| - 1;
    var before := history[..last];
    if p in SelectedAfter(before) {
      j := SinceIsSpanStart(before, p);
      assert forall k :: j <= k < last ==> before[k] == history[k];
    } else {
      j := last;
      if last > 0 {
        assert SelectedAfter(before) == Carry(SelectedAfter(before[..last - 1]), before[last - 1]);
      }
    }
  }

  /** A link is operational exactly when its pair was chosen in every frame of an unbroken span
      that began at least the acquisition time ago. */
  lemma OperationalMeansAcquired(history: seq<Sample>, p: Contact, acquisition: real)
    requires Increasing(history) && history != []
    ensures Operational(history, p, acquisition) <==>
            exists j: nat :: ChosenSince(history, p, j)
                && history[|history| - 1].offset - history[j].offset >= acquisition
  {
    var last := |history| - 1;
    if p in SelectedAfter(history) {
      var start := SinceIsSpanStart(history, p);
      assert start > 0 ==> p !in history[start - 1].chosen;
      forall j: nat | ChosenSince(history, p, j) ensures history[start].offset <= history[j].offset {
      }
    } else {
      assert p !in history[last].chosen;
      assert forall j: nat :: !ChosenSince(history, p, j);
    }
  }

  lemma {:induction false} HistoryGrows(history: seq<Sample>, selected: map<Contact, real>, sample: Sample,
                                        up: set<Contact>, acquisition: real)
    requires Increasing(history) && selected == SelectedAfter(history)
    requires history != [] ==> history[|history| - 1].offset < sample.offset
    requires up == set p | p in sample.chosen && sample.offset - Carry(selected, sample)[p] >= acquisition
    ensures Increasing(history + [sample]) && Carry(selected, sample) == SelectedAfter(history + [sample])
    ensures forall p :: p in up <==> Operational(history + [sample], p, acquisition)
    ensures history == [] ==> selected == map[]
  {
    assert (history + [sample])[..|history|] == history;
  }

  // ---- one frame -----------------------------------------------------------------------------

  ghost function Touching(s: set<Contact>, n: string): set<Contact> {
    set c | c in s && (c.sat == n || c.gw == n)
  }

  /** Candidates are listed once, only feeder candidates lead to ground sites, and no pair joins a node to itself. */
  ghost predicate WellFormed(candidates: seq<Candidate>, sites: set<string>) {
    && (forall i, j :: 0 <= i < j < |candidates| ==>
          candidates[i].isl != candidates[j].isl || candidates[i].a != candidates[j].a
            || candidates[i].b != candidates[j].b)
    && (forall i :: 0 <= i < |candidates| ==>
          candidates[i].a !in sites && (candidates[i].isl <==> candidates[i].b !in sites)
            && candidates[i].a != candidates[i].b)
  }

  ghost function PairsOf(candidates: seq<Candidate>, isl: bool): set<Contact> {
    set i | 0 <= i < |candidates| && candidates[i].isl == isl :: Contact(candidates[i].a, candidates[i].b)
  }

  ghost function SamePlanePairs(candidates: seq<Candidate>): set<Contact> {
    set i | 0 <= i < |candidates| && candidates[i].isl
      && candidates[i].samePlane :: Contact(candidates[i].a, candidates[i].b)
  }

  function Count(counts: map<Key, nat>, key: Key): nat {
    if key in counts then counts[key] else 0
  }

  function Bump(counts: map<Key, nat>, key: Key): map<Key, nat> {
    counts[key := Count(counts, key) + 1]
  }

  /** The counters agree with the pairs they count. */
  ghost predicate Counts(counts: map<Key, nat>, isl: set<Contact>, plane: set<Contact>, ground: set<Contact>) {
    forall n :: Count(counts, Isl(n)) == |Touching(isl, n)|
             && Count(counts, SamePlane(n)) == |Touching(plane, n)|
             && Count(counts, Ground(n)) == |Touching(ground, n)|
  }

  lemma TouchingAdd(s: set<Contact>, c: Contact, n: string)
    requires c !in s
    ensures |Touching(s + {c}, n)| == |Touching(s, n)| + if c.sat == n || c.gw == n then 1 else 0
  {
    if c.sat == n || c.gw == n {
      assert Touching(s + {c}, n) == Touching(s, n) + {c};
    } else {
      assert Touching(s + {c}, n) == Touching(s, n);
    }
  }

  /** A feeder pair that the allocator granted always fits into the counters. */
  lemma FeederFits(granted: set<Contact>, taken: set<Contact>, c: Contact, limit: nat, budget: nat)
    requires taken <= granted && c in granted && c !in taken
    requires forall x, y :: x in granted && y in granted ==> x.sat != y.gw
    requires |Column(granted, c.sat)| <= limit && |Row(granted, c.gw)| <= budget
    ensures |Touching(taken, c.sat)| < limit && |Touching(taken, c.gw)| < budget
  {
    assert Touching(taken, c.sat) + {c} <= Column(granted, c.sat);
    SubsetSize(Touching(taken, c.sat) + {c}, Column(granted, c.sat));
    assert Touching(taken, c.gw) + {c} <= Row(granted, c.gw);
    SubsetSize(Touching(taken, c.gw) + {c}, Row(granted, c.gw));
  }

  ghost predicate Grown(counts: map<Key, nat>, counts': map<Key, nat>) {
    forall k :: Count(counts, k) <= Count(counts', k)
  }

  lemma BumpTwice(counts: map<Key, nat>, x: Key, y: Key)
    requires x != y
    ensures Grown(counts, Bump(Bump(counts, x), y))
    ensures forall k :: Count(Bump(Bump(counts, x), y), k) == Count(counts, k) + if k == x || k == y then 1 else 0
  {
  }

  lemma CountOf(counts: map<Key, nat>, isl: set<Contact>, plane: set<Contact>, ground: set<Contact>, n: string)
    requires Counts(counts, isl, plane, ground)
    ensures Count(counts, Ground(n)) == |Touching(ground, n)|
  {
  }

  lemma CountGround(counts: map<Key, nat>, isl: set<Contact>, plane: set<Contact>, ground: set<Contact>, c: Contact)
    requires Counts(counts, isl, plane, ground) && c !in ground && c.sat != c.gw
    ensures Counts(Bump(Bump(counts, Ground(c.sat)), Ground(c.gw)), isl, plane, ground + {c})
  {
    forall n ensures |Touching(ground + {c}, n)| == |Touching(ground, n)| + if c.sat == n || c.gw == n then 1 else 0 {
      TouchingAdd(ground, c, n);
    }
  }

  lemma CountPlane(counts: map<Key, nat>, isl: set<Contact>, plane: set<Contact>, ground: set<Contact>, c: Contact)
    requires Counts(counts, isl, plane, ground) && c !in plane && c.sat != c.gw
    ensures Counts(Bump(Bump(counts, SamePlane(c.sat)), SamePlane(c.gw)), isl, plane + {c}, ground)
  {
    forall n ensures |Touching(plane + {c}, n)| == |Touching(plane, n)| + if c.sat == n || c.gw == n then 1 else 0 {
      TouchingAdd(plane, c, n);
    }
  }

  lemma CountIsl(counts: map<Key, nat>, isl: set<Contact>, plane: set<Contact>, ground: set<Contact>, c: Contact)
    requires Counts(counts, isl, plane, ground) && c !in isl && c.sat != c.gw
    ensures Counts(Bump(Bump(counts, Isl(c.sat)), Isl(c.gw)), isl + {c}, plane, ground)
  {
    forall n ensures |Touching(isl + {c}, n)| == |Touching(isl, n)| + if c.sat == n || c.gw == n then 1 else 0 {
      TouchingAdd(isl, c, n);
    }
  }

  /** The pairs of a list that is extended by one candidate. */
  lemma PairsGrow(candidates: seq<Candidate>, sites: set<string>, i: nat)
    requires WellFormed(candidates, sites) && i < |candidates|
    ensures var c := candidates[i];
            var pair := Contact(c.a, c.b);
            && c.a != c.b && pair !in PairsOf(candidates[..i], c.isl)
            && PairsOf(candidates[..i + 1], c.isl) == PairsOf(candidates[..i], c.isl) + {pair}
            && PairsOf(candidates[..i + 1], !c.isl) == PairsOf(candidates[..i], !c.isl)
            && SamePlanePairs(candidates[..i + 1])
                 == SamePlanePairs(candidates[..i]) + (if c.isl && c.samePlane then {pair} else {})
            && SamePlanePairs(candidates[..i]) <= PairsOf(candidates[..i], true)
  {
    var before, after := candidates[..i], candidates[..i + 1];
    assert after == before + [candidates[i]];
    assert forall k :: 0 <= k < i ==> before[k] == candidates[k] == after[k];
    assert after[i] == candidates[i];
  }

  lemma FeederPairsGrow(done: seq<Candidate>, c: Candidate)
    ensures PairsOf(done + [c], false) == PairsOf(done, false) + if c.isl then {} else {Contact(c.a, c.b)}
  {
    var after := done + [c];
    assert forall k :: 0 <= k < |done| ==> after[k] == done[k];
    assert after[|done|] == c;
  }

  lemma NoPairs(candidates: seq<Candidate>)
    ensures PairsOf(candidates[..0], false) == {} && SamePlanePairs(candidates[..0]) == {}
    ensures Counts(map[], {}, {}, {})
  {
    forall n ensures Touching({}, n) == {} {
    }
  }

  lemma GrantedNames(candidates: seq<Candidate>, sites: set<string>, granted: set<Contact>)
    requires WellFormed(candidates, sites) && granted <= PairsOf(candidates, false)
    ensures forall x, y :: x in granted && y in granted ==> x.sat != y.gw
  {
  }

  /** No allocation of eligible contacts within both budgets has more contacts. */
  ghost predicate Largest(pairs: set<Contact>, eligible: set<Contact>, limit: nat, budget: nat) {
    forall b :: Feasible(b, eligible, limit) && (forall g :: |Row(b, g)| <= budget) ==> |b| <= |pairs|
  }

  // ---- service across frames -----------------------------------------------------------------

  /** The pairs of site `g` that are still eligible and have been held for the acquisition time. */
  ghost function Ready(pairs: set<Contact>, selected: map<Contact, real>, g: string, offset: real,
                       acquisition: real): set<Contact>
  {
    set c | c in pairs && c.gw == g && c in selected && offset - selected[c] >= acquisition
  }

  /** The contacts respect both budgets. */
  ghost predicate Fits(contacts: set<Contact>, policy: Policy) {
    && (forall s :: |Column(contacts, s)| <= policy.feederTerminals)
    && (forall g :: |Row(contacts, g)| <= policy.gatewayTerminals)
  }

  lemma FitsFewer(fewer: set<Contact>, contacts: set<Contact>, policy: Policy)
    requires Fits(contacts, policy) && fewer <= contacts
    ensures Fits(fewer, policy)
  {
    forall s ensures |Column(fewer, s)| <= policy.feederTerminals {
      SubsetSize(Column(fewer, s), Column(contacts, s));
    }
    forall g ensures |Row(fewer, g)| <= policy.gatewayTerminals {
      SubsetSize(Row(fewer, g), Row(contacts, g));
    }
  }

  /** Of the contacts that were chosen before and are still eligible no site has more than two and more than one above
      another site. */
  ghost predicate Balanced(returning: set<Contact>, eligible: set<Contact>) {
    forall c, d :: c in eligible && d in eligible ==> |Row(returning, c.gw)| <= Max(2, |Row(returning, d.gw)| + 1)
  }

  /** Two sites, one terminal per satellite. Of its returning contacts `rich` has more than two and more than one above
      `poor`, but no more than two that are operational. One of these is with `x`, the only new satellite of `poor`. */
  ghost predicate Presses(eligible: set<Contact>, selected: map<Contact, real>, offset: real, policy: Policy,
                          poor: string, rich: string, x: string)
  {
    var returning := eligible * selected.Keys;
    && policy.feederTerminals == 1 && policy.acquisition > 0.0
    && poor != rich && poor != "" && rich != "" && (forall c :: c in eligible ==> c.gw == poor || c.gw == rich)
    && |Row(returning, rich)| > Max(2, |Row(returning, poor)| + 1)
    && Contact(x, rich) in Ready(eligible, selected, rich, offset, policy.acquisition)
    && |Ready(eligible, selected, rich, offset, policy.acquisition)| <= 2
    && Contact(x, poor) in eligible && Contact(x, poor) !in selected
    && forall c :: c in eligible && c.gw == poor ==> c.sat == x || c in selected
  }

  ghost predicate Pressed(eligible: set<Contact>, selected: map<Contact, real>, offset: real, policy: Policy) {
    exists poor, rich, x :: Presses(eligible, selected, offset, policy, poor, rich, x)
  }

  /** No site falls below two operational feeder links, or below what it has left of them if that is less. */
  ghost predicate ServiceKept(eligible: set<Contact>, selected: map<Contact, real>, pairs: set<Contact>, offset: real,
                              acquisition: real)
  {
    forall g :: Min(2, |Ready(eligible, selected, g, offset,
                              acquisition)|) <= |Ready(pairs, selected, g, offset, acquisition)|
  }

  ghost predicate StillUp(eligible: set<Contact>, selected: map<Contact, real>, up: set<Contact>, offset: real,
                          acquisition: real)
  {
    forall g :: Min(2, |Ready(eligible, selected, g, offset, acquisition)|) <= |Row(up, g)|
  }

  /** What is ready is up. With an acquisition time nothing else is. */
  lemma ReadyIsUp(eligible: set<Contact>, selected: map<Contact, real>, pairs: set<Contact>, isl: set<Contact>,
                  sites: set<string>, up: set<Contact>, offset: real, acquisition: real)
    requires (forall c :: c in eligible ==> c.gw in sites) && forall c :: c in isl ==> c.gw !in sites
    requires up == set p | p in pairs + isl && offset - Carry(selected, Sample(offset, pairs + isl))[p] >= acquisition
    ensures ServiceKept(eligible, selected, pairs, offset, acquisition) ==>
              StillUp(eligible, selected, up, offset, acquisition)
    ensures acquisition > 0.0 && StillUp(eligible, selected, up, offset, acquisition) ==>
              ServiceKept(eligible, selected, pairs, offset, acquisition)
  {
    forall g ensures |Ready(pairs, selected, g, offset, acquisition)| <= |Row(up, g)| {
      SubsetSize(Ready(pairs, selected, g, offset, acquisition), Row(up, g));
    }
    if acquisition > 0.0 {
      forall g ensures g in sites ==> |Row(up, g)| <= |Ready(pairs, selected, g, offset, acquisition)| {
        if g in sites {
          SubsetSize(Row(up, g), Ready(pairs, selected, g, offset, acquisition));
        }
      }
      forall g | g !in sites ensures Ready(eligible, selected, g, offset, acquisition) == {} {
      }
    }
  }

  lemma PreviousIsRow(books: Feeder.Terminals, g: string)
    requires g in books.choices
    ensures |books.Previous(g)| == |Row(books.Eligible() * books.selected.Keys, g)|
  {
    Feeder.RowImage(books.Previous(g), g);
    assert (set s | s in books.Previous(g) :: Contact(s, g)) == Row(books.Eligible() * books.selected.Keys, g);
  }

  lemma PreviousIsColumn(books: Feeder.Terminals, s: string)
    ensures |set g | g in books.choices
            && s in books.Previous(g)| == |Column(books.Eligible() * books.selected.Keys, s)|
  {
    var sites := set g | g in books.choices && s in books.Previous(g);
    Feeder.ColumnImage(sites, s);
    assert (set g | g in sites :: Contact(s, g)) == Column(books.Eligible() * books.selected.Keys, s);
  }

  lemma FitsIsPreviousFits(books: Feeder.Terminals, policy: Policy)
    requires books.limit == policy.feederTerminals && books.budget == policy.gatewayTerminals
    requires Fits(books.Eligible() * books.selected.Keys, policy)
    ensures books.PreviousFits() && forall g :: g in books.choices ==> |books.Previous(g)| <= books.budget
  {
    hide Row, Column;
    forall s | s in books.Sats() ensures |set g | g in books.choices && s in books.Previous(g)| <= books.limit {
      PreviousIsColumn(books, s);
    }
    forall g | g in books.choices ensures |books.Previous(g)| <= books.budget {
      PreviousIsRow(books, g);
    }
  }

  lemma BalancedIsUndisturbed(books: Feeder.Terminals)
    requires forall g :: g in books.choices ==> books.choices[g] != []
    requires books.PreviousFits() && Balanced(books.Eligible() * books.selected.Keys, books.Eligible())
    ensures books.Undisturbed()
  {
    hide Row, Column;
    forall g, h | g in books.choices && h in books.choices
      ensures Min(books.budget, |books.Previous(g)|) <= Max(2, Min(books.budget, |books.Previous(h)|) + 1)
    {
      PreviousIsRow(books, g);
      PreviousIsRow(books, h);
      var c, d := Contact(books.choices[g][0], g), Contact(books.choices[h][0], h);
      assert c in books.Eligible() && d in books.Eligible();
    }
  }

  lemma ReadyIsLocked(books: Feeder.Terminals, a: Feeder.Table, g: string, offset: real)
    requires g in a && books.offset == Some(offset)
    ensures |Ready(books.Contacts(a), books.selected, g, offset, books.acquisition)| == |books.LockedSats(a[g], g)|
  {
    var locked := books.LockedSats(a[g], g);
    Feeder.RowImage(locked, g);
    assert (set s | s in locked :: Contact(s, g))
             == Ready(books.Contacts(a), books.selected, g, offset, books.acquisition);
  }

  /** When the whole of the previous contacts was kept first, kept service is service kept. */
  lemma SeedReady(books: Feeder.Terminals, seeded: Feeder.Table, places: Feeder.Table, g: string, offset: real)
    requires books.Mirrored(seeded, places) && books.Contacts(seeded) <= books.selected.Keys && g in books.choices
    requires |seeded[g]| == |books.Previous(g)| && books.offset == Some(offset)
    ensures Ready(books.Contacts(seeded), books.selected, g, offset, books.acquisition)
         == Ready(books.Eligible(), books.selected, g, offset, books.acquisition)
  {
    books.SeedWithinPrevious(seeded, places, g);
    SubsetSize(seeded[g], books.Previous(g));
    forall c | c in Ready(books.Eligible(), books.selected, g, offset, books.acquisition)
      ensures c in books.Contacts(seeded)
    {
      assert c.sat in books.Previous(g);
    }
  }

  lemma EligiblePairs(books: Feeder.Terminals, candidates: seq<Candidate>)
    requires forall g, s :: Contact(s, g) in PairsOf(candidates, false) <==> g in books.choices && s in books.choices[g]
    ensures books.Eligible() == PairsOf(candidates, false)
  {
    hide PairsOf;
    forall c ensures c in books.Eligible() <==> c in PairsOf(candidates, false) {
      assert c == Contact(c.sat, c.gw);
    }
  }

  lemma MaximumIsLargest(books: Feeder.Terminals, pairs: set<Contact>)
    ensures books.Maximum(pairs) ==> Largest(pairs, books.Eligible(), books.limit, books.budget)
    ensures Feasible(pairs, books.Eligible(), books.limit) ==>
              pairs <= books.Eligible() && forall s :: |Column(pairs, s)| <= books.limit
  {
  }

  lemma ServiceFollows(books: Feeder.Terminals, seeded: Feeder.Table, places: Feeder.Table, held: Feeder.Table,
                       offset: real)
    requires books.Mirrored(seeded, places) && books.Contacts(seeded) <= books.selected.Keys
             && held.Keys == books.choices.Keys
    requires forall g :: g in books.choices ==> g in seeded && |seeded[g]| == Min(books.budget, |books.Previous(g)|)
    requires forall g :: g in books.choices ==> |books.Previous(g)| <= books.budget
    requires books.offset == Some(offset)
    ensures books.KeepsService(seeded, held) <==>
              ServiceKept(books.Eligible(), books.selected, books.Contacts(held), offset, books.acquisition)
  {
    hide Ready;
    forall g
      ensures g in books.choices ==>
                && |Ready(books.Eligible(), books.selected, g, offset, books.acquisition)|
                     == |books.LockedSats(seeded[g], g)|
                && |Ready(books.Contacts(held), books.selected, g, offset, books.acquisition)|
                     == |books.LockedSats(held[g], g)|
      ensures g !in books.choices ==> |Ready(books.Eligible(), books.selected, g, offset, books.acquisition)| == 0
    {
      if g in books.choices {
        SeedReady(books, seeded, places, g, offset);
        ReadyIsLocked(books, seeded, g, offset);
        ReadyIsLocked(books, held, g, offset);
      } else {
        NothingReady(books, g, offset);
      }
    }
  }

  lemma NothingReady(books: Feeder.Terminals, g: string, offset: real)
    requires g !in books.choices
    ensures Ready(books.Eligible(), books.selected, g, offset, books.acquisition) == {}
  {
  }

  /** A site that is pressed is cornered once all previous contacts are kept. */
  lemma PressesIsCornered(books: Feeder.Terminals, seeded: Feeder.Table, places: Feeder.Table, policy: Policy,
                          offset: real, poor: string, rich: string, x: string)
    requires books.limit == policy.feederTerminals && books.acquisition == policy.acquisition
             && books.offset == Some(offset)
    requires forall g :: g in books.choices ==> books.choices[g] != []
    requires books.Mirrored(seeded, places) && books.Contacts(seeded) <= books.selected.Keys
    requires forall g :: g in books.choices ==> g in seeded && |seeded[g]| == |books.Previous(g)|
    requires Presses(books.Eligible(), books.selected, offset, policy, poor, rich, x)
    ensures books.CorneredBy(seeded, poor, rich, x)
  {
    hide Feeder.Terminals.Mirrored;
    PressedSites(books, policy, offset, poor, rich, x);
    forall g | g == poor || g == rich
      ensures seeded[g] == books.Previous(g) && |seeded[g]| == |Row(books.Eligible() * books.selected.Keys, g)|
    {
      books.SeedWithinPrevious(seeded, places, g);
      SubsetSize(seeded[g], books.Previous(g));
      PreviousIsRow(books, g);
    }
    SeedReady(books, seeded, places, rich, offset);
    ReadyIsLocked(books, seeded, rich, offset);
  }

  lemma PressedIsCornered(books: Feeder.Terminals, seeded: Feeder.Table, places: Feeder.Table, policy: Policy,
                          offset: real)
    requires books.limit == policy.feederTerminals && books.acquisition == policy.acquisition
             && books.offset == Some(offset)
    requires forall g :: g in books.choices ==> books.choices[g] != []
    requires books.Mirrored(seeded, places) && books.Contacts(seeded) <= books.selected.Keys
    requires forall g :: g in books.choices ==> g in seeded && |seeded[g]| == Min(books.budget, |books.Previous(g)|)
    requires forall g :: g in books.choices ==> |books.Previous(g)| <= books.budget
    requires Pressed(books.Eligible(), books.selected, offset, policy)
    ensures books.Cornered(seeded)
  {
    hide Presses, Feeder.Terminals.CorneredBy, Feeder.Terminals.Mirrored;
    var poor, rich, x :| Presses(books.Eligible(), books.selected, offset, policy, poor, rich, x);
    PressesIsCornered(books, seeded, places, policy, offset, poor, rich, x);
  }

  lemma PressedWaits(eligible: set<Contact>, selected: map<Contact, real>, offset: real, policy: Policy)
    requires Pressed(eligible, selected, offset, policy)
    ensures policy.acquisition > 0.0
  {
  }

  lemma PressedSites(books: Feeder.Terminals, policy: Policy, offset: real, poor: string, rich: string, x: string)
    requires forall g :: g in books.choices ==> books.choices[g] != []
    requires Presses(books.Eligible(), books.selected, offset, policy, poor, rich, x)
    ensures books.choices.Keys == {poor, rich}
  {
    forall g | g in books.choices ensures g == poor || g == rich {
      assert Contact(books.choices[g][0], g) in books.Eligible();
    }
    assert Contact(x, rich) in books.Eligible() && Contact(x, poor) in books.Eligible();
  }

  class Contacts {
    const policy: Policy
    const sites: set<string>              // the ground sites
    var selected: map<Contact, real>
    ghost var history: seq<Sample>

    ghost predicate Valid()
      reads this
    {
      Increasing(history) && selected == SelectedAfter(history) && Fits(ToGround(selected.Keys), policy)
    }

    /** The contacts with ground sites. */
    ghost function ToGround(contacts: set<Contact>): set<Contact> {
      set c | c in contacts && c.gw in sites
    }

    constructor (policy: Policy, sites: set<string>)
      ensures Valid() && history == [] && this.policy == policy && this.sites == sites
    {
      this.policy, this.sites := policy, sites;
      selected := map[];
      history := [];
    }

    /** Group the feeder candidates by ground site and allocate terminals to them. In the first frame
        no allocation of these candidates within both budgets has more contacts. */
    method FeederPairs(candidates: seq<Candidate>, expiring: set<Contact>, offset: real) returns (pairs: set<Contact>)
      ensures pairs <= PairsOf(candidates, false)
      ensures forall s :: |Column(pairs, s)| <= policy.feederTerminals
      ensures forall g :: |Row(pairs, g)| <= policy.gatewayTerminals
      ensures Crowded(candidates, pairs, expiring)
      ensures selected == map[] ==>
                Largest(pairs, PairsOf(candidates, false), policy.feederTerminals, policy.gatewayTerminals)
      ensures Fits(PairsOf(candidates, false) * selected.Keys, policy) ==>
                && (Balanced(PairsOf(candidates, false) * selected.Keys, PairsOf(candidates, false)) ==>
                      ServiceKept(PairsOf(candidates, false), selected, pairs, offset, policy.acquisition))
                && (Pressed(PairsOf(candidates, false), selected, offset, policy) ==>
                      !ServiceKept(PairsOf(candidates, false), selected, pairs, offset, policy.acquisition))
    {
      hide *;
      var choices := Choices(candidates);
      var books := new Feeder.Terminals(choices, policy.feederTerminals, policy.gatewayTerminals, selected,
                                        Some(offset), policy.acquisition);
      EligiblePairs(books, candidates);
      ghost var seeded, places;
      pairs, seeded, places := books.Pairs(expiring);
      PackedIsCrowded(books, candidates, pairs, expiring);
      MaximumIsLargest(books, pairs);
      if Fits(books.Eligible() * selected.Keys, policy) {
        FitsIsPreviousFits(books, policy);
        books.MirroredKeys(books.held, books.owners);
        ServiceFollows(books, seeded, places, books.held, offset);
        if Balanced(books.Eligible() * selected.Keys, books.Eligible()) {
          BalancedIsUndisturbed(books);
        }
        if Pressed(books.Eligible(), selected, offset, policy) {
          PressedIsCornered(books, seeded, places, policy, offset);
        }
      }
    }

    lemma PackedIsCrowded(books: Feeder.Terminals, candidates: seq<Candidate>, pairs: set<Contact>,
                          expiring: set<Contact>)
      requires books.Packed(pairs, books.Departing(expiring)) && books.Eligible() == PairsOf(candidates, false)
      requires books.limit == policy.feederTerminals && books.budget == policy.gatewayTerminals
      ensures Crowded(candidates, pairs, expiring)
    {
      assert forall s :: s in books.Departing(expiring) ==> Leaves(s, expiring);
    }

    /** Every feeder candidate is chosen, or its site or its satellite is out of terminals, or somebody is about
        to lose that satellite. */
    ghost predicate Crowded(candidates: seq<Candidate>, pairs: set<Contact>, expiring: set<Contact>) {
      forall c :: c in PairsOf(candidates, false) ==>
        || c in pairs || |Row(pairs, c.gw)| >= policy.gatewayTerminals
        || |Column(pairs, c.sat)| >= policy.feederTerminals
        || Leaves(c.sat, expiring)
    }

    ghost predicate Leaves(sat: string, expiring: set<Contact>) {
      exists c :: c in expiring && c.sat == sat
    }

    /** Every inter-satellite candidate is chosen, or an end of it has no free terminal of the kind. */
    ghost predicate Meshed(candidates: seq<Candidate>, isl: set<Contact>) {
      var plane := isl * SamePlanePairs(candidates);
      forall i :: 0 <= i < |candidates| && candidates[i].isl && Contact(candidates[i].a, candidates[i].b) !in isl ==>
        var c := candidates[i];
        || |Touching(isl, c.a)| >= policy.islTerminals || |Touching(isl, c.b)| >= policy.islTerminals
        || (c.samePlane && (|Touching(plane, c.a)| >= policy.samePlaneTerminals
                            || |Touching(plane, c.b)| >= policy.samePlaneTerminals))
    }

    lemma JustifiedMeans(candidates: seq<Candidate>, counts: map<Key, nat>, isl: set<Contact>, ground: set<Contact>)
      requires Justified(candidates, counts, isl) && Counts(counts, isl, isl * SamePlanePairs(candidates), ground)
      ensures Meshed(candidates, isl)
    {
      hide Touching, SamePlanePairs;
    }

    method Choices(candidates: seq<Candidate>) returns (choices: map<string, seq<string>>)
      ensures forall g, s :: Contact(s, g) in PairsOf(candidates, false) <==> g in choices && s in choices[g]
      ensures forall g :: g in choices ==> choices[g] != []
    {
      choices := map[];
      for i := 0 to |candidates|
        invariant forall g, s :: Contact(s, g) in PairsOf(candidates[..i], false) <==> g in choices && s in choices[g]
        invariant forall g :: g in choices ==> choices[g] != []
      {
        var c := candidates[i];
        FeederPairsGrow(candidates[..i], c);
        assert candidates[..i + 1] == candidates[..i] + [c];
        if !c.isl {
          choices := choices[c.b := (if c.b in choices then choices[c.b] else []) + [c.a]];
        }
      }
      assert candidates[..|candidates|] == candidates;
    }

    /** Choose the contacts of one sampling instant greedily within the terminal budgets.
        `up` holds the pairs whose links are operational. */
    method Frame(candidates: seq<Candidate>, expiring: set<Contact>, offset: real)
      returns (feeders: set<Contact>, isl: set<Contact>, up: set<Contact>)
      requires Valid() && WellFormed(candidates, sites)
      requires history != [] ==> history[|history| - 1].offset < offset
      modifies this
      ensures Valid() && history == old(history) + [Sample(offset, feeders + isl)]
      ensures feeders <= PairsOf(candidates, false) && isl <= PairsOf(candidates, true)
      ensures forall s :: |Column(feeders, s)| <= policy.feederTerminals
      ensures forall g :: |Row(feeders, g)| <= policy.gatewayTerminals
      ensures forall n :: |Touching(isl, n)| <= policy.islTerminals
      ensures forall n :: |Touching(isl * SamePlanePairs(candidates), n)| <= policy.samePlaneTerminals
      ensures Crowded(candidates, feeders, expiring) && Meshed(candidates, isl)
      ensures old(history) == [] ==>
                Largest(feeders, PairsOf(candidates, false), policy.feederTerminals, policy.gatewayTerminals)
      ensures forall p :: p in up <==> Operational(history, p, policy.acquisition)
      ensures Balanced(PairsOf(candidates, false) * old(selected).Keys, PairsOf(candidates, false)) ==>
                StillUp(PairsOf(candidates, false), old(selected), up, offset, policy.acquisition)
      ensures Pressed(PairsOf(candidates, false), old(selected), offset, policy) ==>
                !StillUp(PairsOf(candidates, false), old(selected), up, offset, policy.acquisition)
    {
      hide PairsOf, SamePlanePairs, Touching, Column, Row, WellFormed, Largest, Counts, Justified, Crowded, Meshed,
           Balanced, ServiceKept, StillUp, Increasing, SelectedAfter, Operational, Ready, Feasible, Fits, ToGround,
           Pressed;
      Returning(candidates);
      feeders := FeederPairs(candidates, expiring, offset);
      var counts;
      isl, counts := Schedule(candidates, feeders);
      JustifiedMeans(candidates, counts, isl, feeders);
      var chosen := feeders + isl;
      var next := Carry(selected, Sample(offset, chosen));
      up := set p | p in chosen && offset - next[p] >= policy.acquisition;
      SitesApart(candidates, feeders, isl);
      ReadyIsUp(PairsOf(candidates, false), selected, feeders, isl, sites, up, offset, policy.acquisition);
      if Pressed(PairsOf(candidates, false), selected, offset, policy) {
        PressedWaits(PairsOf(candidates, false), selected, offset, policy);
      }
      HistoryGrows(history, selected, Sample(offset, chosen), up, policy.acquisition);
      assert next.Keys == chosen;
      selected := next;
      history := history + [Sample(offset, chosen)];
    }

    /** What returns was chosen within the same budgets. */
    lemma Returning(candidates: seq<Candidate>)
      requires WellFormed(candidates, sites) && Valid()
      ensures Fits(PairsOf(candidates, false) * selected.Keys, policy)
    {
      hide Fits;
      FitsFewer(PairsOf(candidates, false) * selected.Keys, ToGround(selected.Keys), policy);
    }

    lemma SitesApart(candidates: seq<Candidate>, feeders: set<Contact>, isl: set<Contact>)
      requires WellFormed(candidates, sites) && feeders <= PairsOf(candidates, false)
               && isl <= PairsOf(candidates, true)
      requires forall s :: |Column(feeders, s)| <= policy.feederTerminals
      requires forall g :: |Row(feeders, g)| <= policy.gatewayTerminals
      ensures (forall c :: c in PairsOf(candidates, false) ==> c.gw in sites) && forall c :: c in isl ==> c.gw !in sites
      ensures Fits(ToGround(feeders + isl), policy)
    {
      assert ToGround(feeders + isl) == feeders;
    }

    /** Every candidate the counters turn away had an endpoint without a free terminal. */
    ghost predicate Justified(candidates: seq<Candidate>, counts: map<Key, nat>, isl: set<Contact>) {
      forall i :: 0 <= i < |candidates| && candidates[i].isl && Contact(candidates[i].a, candidates[i].b) !in isl ==>
        var c := candidates[i];
        || Count(counts, Isl(c.a)) >= policy.islTerminals || Count(counts, Isl(c.b)) >= policy.islTerminals
        || (c.samePlane && (Count(counts, SamePlane(c.a)) >= policy.samePlaneTerminals
                            || Count(counts, SamePlane(c.b)) >= policy.samePlaneTerminals))
    }

    /** The first `i` candidates have been scheduled. */
    ghost predicate Tally(candidates: seq<Candidate>, granted: set<Contact>, i: nat, counts: map<Key, nat>,
                          isl: set<Contact>)
      requires i <= |candidates|
    {
      var done := candidates[..i];
      && Counts(counts, isl, isl * SamePlanePairs(done), granted * PairsOf(done, false))
      && isl <= PairsOf(done, true)
      && (forall n :: Count(counts, Isl(n)) <= policy.islTerminals)
      && (forall n :: Count(counts, SamePlane(n)) <= policy.samePlaneTerminals)
      && Justified(done, counts, isl)
    }

    lemma JustifiedGrows(done: seq<Candidate>, c: Candidate, counts: map<Key, nat>, counts': map<Key, nat>,
                         isl: set<Contact>, isl': set<Contact>)
      requires Justified(done, counts, isl) && isl <= isl' && Grown(counts, counts')
      requires c.isl ==> Contact(c.a, c.b) in isl'
      ensures Justified(done + [c], counts', isl')
    {
    }

    lemma JustifiedSkips(done: seq<Candidate>, c: Candidate, counts: map<Key, nat>, isl: set<Contact>)
      requires Justified(done, counts, isl)
      requires c.isl ==>
                 || Count(counts, Isl(c.a)) >= policy.islTerminals || Count(counts, Isl(c.b)) >= policy.islTerminals
                 || (c.samePlane && (Count(counts, SamePlane(c.a)) >= policy.samePlaneTerminals
                                     || Count(counts, SamePlane(c.b)) >= policy.samePlaneTerminals))
      ensures Justified(done + [c], counts, isl)
    {
    }

    lemma TallyStarts(candidates: seq<Candidate>, granted: set<Contact>)
      ensures Tally(candidates, granted, 0, map[], {})
    {
      NoPairs(candidates);
    }

    /** A candidate that is passed over. */
    lemma TallySkips(candidates: seq<Candidate>, granted: set<Contact>, i: nat, counts: map<Key, nat>,
                     isl: set<Contact>)
      requires WellFormed(candidates, sites) && i < |candidates| && Tally(candidates, granted, i, counts, isl)
      requires var c := candidates[i];
               if c.isl then
                 || Count(counts, Isl(c.a)) >= policy.islTerminals || Count(counts, Isl(c.b)) >= policy.islTerminals
                 || (c.samePlane && (Count(counts, SamePlane(c.a)) >= policy.samePlaneTerminals
                                     || Count(counts, SamePlane(c.b)) >= policy.samePlaneTerminals))
               else Contact(c.a, c.b) !in granted
      ensures Tally(candidates, granted, i + 1, counts, isl)
    {
      hide WellFormed, Counts, PairsOf, SamePlanePairs, Justified, Count;
      var c := candidates[i];
      var pair, before, after := Contact(c.a, c.b), candidates[..i], candidates[..i + 1];
      PairsGrow(candidates, sites, i);
      assert after == before + [c];
      assert isl * SamePlanePairs(after) == isl * SamePlanePairs(before);
      assert granted * PairsOf(after, false) == granted * PairsOf(before, false);
      JustifiedSkips(before, c, counts, isl);
    }

    /** A granted feeder pair passes the counters and is counted. */
    lemma TallyGround(candidates: seq<Candidate>, granted: set<Contact>, i: nat, counts: map<Key, nat>,
                      isl: set<Contact>)
      requires WellFormed(candidates, sites) && i < |candidates| && Tally(candidates, granted, i, counts, isl)
      requires granted <= PairsOf(candidates, false)
      requires forall s :: |Column(granted, s)| <= policy.feederTerminals
      requires forall g :: |Row(granted, g)| <= policy.gatewayTerminals
      requires !candidates[i].isl && Contact(candidates[i].a, candidates[i].b) in granted
      ensures Count(counts, Ground(candidates[i].a)) < policy.feederTerminals
      ensures Count(counts, Ground(candidates[i].b)) < policy.gatewayTerminals
      ensures Tally(candidates, granted, i + 1, Bump(Bump(counts, Ground(candidates[i].a)), Ground(candidates[i].b)),
                    isl)
    {
      hide WellFormed, Counts, Column, Row, Touching, PairsOf, SamePlanePairs, Justified, Count, Bump;
      var c := candidates[i];
      var pair, before, after := Contact(c.a, c.b), candidates[..i], candidates[..i + 1];
      var ground := granted * PairsOf(before, false);
      PairsGrow(candidates, sites, i);
      GrantedNames(candidates, sites, granted);
      FeederFits(granted, ground, pair, policy.feederTerminals, policy.gatewayTerminals);
      CountOf(counts, isl, isl * SamePlanePairs(before), ground, c.a);
      CountOf(counts, isl, isl * SamePlanePairs(before), ground, c.b);
      CountGround(counts, isl, isl * SamePlanePairs(before), ground, pair);
      BumpTwice(counts, Ground(c.a), Ground(c.b));
      JustifiedGrows(before, c, counts, Bump(Bump(counts, Ground(c.a)), Ground(c.b)), isl, isl);
      assert granted * PairsOf(after, false) == ground + {pair};
      assert SamePlanePairs(after) == SamePlanePairs(before);
      assert after == before + [c];
    }

    /** An inter-satellite pair with free terminals is taken. */
    lemma TallyIsl(candidates: seq<Candidate>, granted: set<Contact>, i: nat, counts: map<Key, nat>, isl: set<Contact>)
      requires WellFormed(candidates, sites) && i < |candidates| && Tally(candidates, granted, i, counts, isl)
      requires var c := candidates[i];
               && c.isl && Count(counts, Isl(c.a)) < policy.islTerminals
               && Count(counts, Isl(c.b)) < policy.islTerminals
               && (c.samePlane ==> Count(counts, SamePlane(c.a)) < policy.samePlaneTerminals
                                   && Count(counts, SamePlane(c.b)) < policy.samePlaneTerminals)
      ensures var c := candidates[i];
              var counts' := if c.samePlane then Bump(Bump(counts, SamePlane(c.a)), SamePlane(c.b)) else counts;
              Tally(candidates, granted, i + 1, Bump(Bump(counts', Isl(c.a)), Isl(c.b)), isl + {Contact(c.a, c.b)})
    {
      hide WellFormed, Counts, Column, Row, Touching, PairsOf, SamePlanePairs, Justified, Count, Bump;
      var c := candidates[i];
      var pair, before, after := Contact(c.a, c.b), candidates[..i], candidates[..i + 1];
      var plane, ground := isl * SamePlanePairs(before), granted * PairsOf(before, false);
      PairsGrow(candidates, sites, i);
      assert after == before + [c];
      assert ground == granted * PairsOf(after, false);
      var counts1 := if c.samePlane then Bump(Bump(counts, SamePlane(c.a)), SamePlane(c.b)) else counts;
      BumpTwice(counts, SamePlane(c.a), SamePlane(c.b));
      BumpTwice(counts1, Isl(c.a), Isl(c.b));
      JustifiedGrows(before, c, counts, Bump(Bump(counts1, Isl(c.a)), Isl(c.b)), isl, isl + {pair});
      if c.samePlane {
        assert (isl + {pair}) * SamePlanePairs(after) == plane + {pair};
        CountPlane(counts, isl, plane, ground, pair);
        CountIsl(Bump(Bump(counts, SamePlane(c.a)), SamePlane(c.b)), isl, plane + {pair}, ground, pair);
      } else {
        assert (isl + {pair}) * SamePlanePairs(after) == plane;
        CountIsl(counts, isl, plane, ground, pair);
      }
    }

    lemma TallyEnds(candidates: seq<Candidate>, granted: set<Contact>, counts: map<Key, nat>, isl: set<Contact>)
      requires granted <= PairsOf(candidates, false) && Tally(candidates, granted, |candidates|, counts, isl)
      ensures isl <= PairsOf(candidates, true)
      ensures forall n :: |Touching(isl, n)| <= policy.islTerminals
      ensures forall n :: |Touching(isl * SamePlanePairs(candidates), n)| <= policy.samePlaneTerminals
      ensures Counts(counts, isl, isl * SamePlanePairs(candidates), granted) && Justified(candidates, counts, isl)
    {
      assert candidates[..|candidates|] == candidates;
      assert granted * PairsOf(candidates, false) == granted;
    }

    /** The greedy loop. Every granted feeder pair passes the counters; an inter-satellite pair is
        turned away only when one of its ends is out of terminals. */
    method Schedule(candidates: seq<Candidate>, granted: set<Contact>)
      returns (isl: set<Contact>, counts: map<Key, nat>)
      requires WellFormed(candidates, sites) && granted <= PairsOf(candidates, false)
      requires forall s :: |Column(granted, s)| <= policy.feederTerminals
      requires forall g :: |Row(granted, g)| <= policy.gatewayTerminals
      ensures isl <= PairsOf(candidates, true)
      ensures forall n :: |Touching(isl, n)| <= policy.islTerminals
      ensures forall n :: |Touching(isl * SamePlanePairs(candidates), n)| <= policy.samePlaneTerminals
      ensures Counts(counts, isl, isl * SamePlanePairs(candidates), granted)
      ensures Justified(candidates, counts, isl)
    {
      hide *;
      isl, counts := {}, map[];
      TallyStarts(candidates, granted);
      for i := 0 to |candidates|
        invariant Tally(candidates, granted, i, counts, isl)
      {
        var c := candidates[i];
        if !c.isl {
          if Contact(c.a, c.b) !in granted {
            TallySkips(candidates, granted, i, counts, isl);
            continue;
          }
          // the terminal counters are consulted for feeders too, but never turn a granted pair away
          TallyGround(candidates, granted, i, counts, isl);
          counts := Bump(Bump(counts, Ground(c.a)), Ground(c.b));
          continue;
        }
        if Count(counts, Isl(c.a)) >= policy.islTerminals || Count(counts, Isl(c.b)) >= policy.islTerminals {
          TallySkips(candidates, granted, i, counts, isl);
          continue;
        }
        if c.samePlane && (Count(counts, SamePlane(c.a)) >= policy.samePlaneTerminals
                           || Count(counts, SamePlane(c.b)) >= policy.samePlaneTerminals) {
          TallySkips(candidates, granted, i, counts, isl);
          continue;
        }
        TallyIsl(candidates, granted, i, counts, isl);
        if c.samePlane {
          counts := Bump(Bump(counts, SamePlane(c.a)), SamePlane(c.b));
        }
        counts := Bump(Bump(counts, Isl(c.a)), Isl(c.b));
        isl := isl + {Contact(c.a, c.b)};
      }
      TallyEnds(candidates, granted, counts, isl);
    }
  }
}
