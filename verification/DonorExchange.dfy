/** Runs of frames in which the donor exchange costs a ground site its service, one for every pair of counts of
    returning contacts that is not balanced. */
module DonorExchange {
  import opened Basics
  import opened Allocation
  import opened Frames

  ghost predicate Distinct<T>(s: seq<T>) {
    forall i, j :: 0 <= i < j < |s| ==> s[i] != s[j]
  }

  ghost function Members(s: seq<Contact>): set<Contact> {
    set c | c in s
  }

  lemma {:induction false} DistinctSize(s: seq<Contact>)
    requires Distinct(s)
    ensures |Members(s)| == |s|
  {
    if s != [] {
      var rest := s[..|s| - 1];
      DistinctSize(rest);
      assert Members(s) == Members(rest) + {s[|s| - 1]};
    }
  }

  // ---- frames with feeder candidates only ----------------------------------------------------

  function Listing(pairs: seq<Contact>): (candidates: seq<Candidate>)
    ensures |candidates| == |pairs|
    ensures forall i :: 0 <= i < |pairs| ==> candidates[i] == Candidate(false, pairs[i].sat, pairs[i].gw, false)
  {
    seq(|pairs|, i requires 0 <= i < |pairs| => Candidate(false, pairs[i].sat, pairs[i].gw, false))
  }

  /** Different pairs of satellites with ground sites. */
  ghost predicate Proper(pairs: seq<Contact>, sites: set<string>) {
    Distinct(pairs) && forall i :: 0 <= i < |pairs| ==> pairs[i].gw in sites && pairs[i].sat !in sites
  }

  lemma ListingPairs(pairs: seq<Contact>, sites: set<string>)
    requires Proper(pairs, sites)
    ensures WellFormed(Listing(pairs), sites)
    ensures PairsOf(Listing(pairs), false) == Members(pairs) && PairsOf(Listing(pairs), true) == {}
  {
    var candidates := Listing(pairs);
    forall i, j | 0 <= i < j < |pairs|
      ensures candidates[i].a != candidates[j].a || candidates[i].b != candidates[j].b
    {
      assert pairs[i] != pairs[j];
    }
    forall c | c in Members(pairs) ensures c in PairsOf(candidates, false) {
      var i :| 0 <= i < |pairs| && pairs[i] == c;
      assert c == Contact(candidates[i].a, candidates[i].b);
    }
    forall c | c in PairsOf(candidates, false) ensures c in Members(pairs) {
      var i :| 0 <= i < |candidates| && c == Contact(candidates[i].a, candidates[i].b);
      assert pairs[i] == c;
    }
  }

  /** Where no satellite is seen twice and no site sees more than it has terminals for, everything is chosen. */
  lemma AllChosen(contacts: Contacts, pairs: seq<Contact>, feeders: set<Contact>)
    requires Proper(pairs, contacts.sites) && feeders <= Members(pairs) && contacts.Crowded(Listing(pairs), feeders, {})
    requires contacts.policy.feederTerminals > 0 && |pairs| <= contacts.policy.gatewayTerminals
    requires forall i, j :: 0 <= i < j < |pairs| ==> pairs[i].sat != pairs[j].sat
    ensures feeders == Members(pairs)
  {
    ListingPairs(pairs, contacts.sites);
    DistinctSize(pairs);
    forall c | c in Members(pairs) ensures c in feeders {
      if c !in feeders {
        assert Column(feeders, c.sat) == {};
        SubsetSize(Row(feeders, c.gw) + {c}, Members(pairs));
      }
    }
  }

  /** One such frame. */
  method TakeAll(contacts: Contacts, pairs: seq<Contact>, offset: real) returns (up: set<Contact>)
    requires contacts.Valid() && Proper(pairs, contacts.sites)
    requires contacts.history != [] ==> contacts.history[|contacts.history| - 1].offset < offset
    requires contacts.policy.feederTerminals > 0 && |pairs| <= contacts.policy.gatewayTerminals
    requires forall i, j :: 0 <= i < j < |pairs| ==> pairs[i].sat != pairs[j].sat
    modifies contacts
    ensures contacts.Valid() && contacts.history == old(contacts.history) + [Sample(offset, Members(pairs))]
    ensures contacts.selected == Carry(old(contacts.selected), Sample(offset, Members(pairs)))
    ensures forall p :: p in up <==> Operational(contacts.history, p, contacts.policy.acquisition)
  {
    hide PairsOf, WellFormed, Row, Column, Operational, Increasing, Fits;
    ListingPairs(pairs, contacts.sites);
    var feeders, isl;
    feeders, isl, up := contacts.Frame(Listing(pairs), {}, offset);
    AllChosen(contacts, pairs, feeders);
    assert feeders + isl == Members(pairs);
    assert contacts.history[..|contacts.history| - 1] == old(contacts.history);
  }

  // ---- the run -------------------------------------------------------------------------------

  /** The first `few` satellites serve `poor` and the others `rich`. */
  function Shared(poor: string, rich: string, sats: seq<string>, few: nat): (pairs: seq<Contact>)
    ensures |pairs| == |sats|
    ensures forall i :: 0 <= i < |sats| ==> pairs[i] == Contact(sats[i], if i < few then poor else rich)
  {
    seq(|sats|, i requires 0 <= i < |sats| => Contact(sats[i], if i < few then poor else rich))
  }

  ghost predicate Setting(poor: string, rich: string, sats: seq<string>, few: nat) {
    && poor != rich && poor != "" && rich != "" && poor !in sats && rich !in sats && Distinct(sats)
    && |sats| - few > Max(2, few + 1)
  }

  /** What is seen in the last frame: everything as before, and the first satellite of `rich` also from `poor`. */
  function Seen(poor: string, rich: string, sats: seq<string>, few: nat): seq<Contact>
    requires few < |sats|
  {
    Shared(poor, rich, sats, few) + [Contact(sats[few], poor)]
  }

  lemma SharedFacts(poor: string, rich: string, sats: seq<string>, few: nat)
    requires Setting(poor, rich, sats, few)
    ensures Proper(Shared(poor, rich, sats, few), {poor, rich}) && Proper(Seen(poor, rich, sats, few), {poor, rich})
    ensures Proper(Shared(poor, rich, sats, few)[few..few + 2], {poor, rich})
    ensures forall i, j :: 0 <= i < j < |sats| ==>
                Shared(poor, rich, sats, few)[i].sat != Shared(poor, rich, sats, few)[j].sat
    ensures Members(Seen(poor, rich, sats, few)) == Members(Shared(poor, rich, sats, few)) + {Contact(sats[few], poor)}
    ensures Contact(sats[few], poor) !in Members(Shared(poor, rich, sats, few))
  {
    var pairs := Shared(poor, rich, sats, few);
    forall i | 0 <= i < |sats| ensures pairs[i].sat !in {poor, rich} && pairs[i] != Contact(sats[few], poor) {
      assert sats[i] in sats;
    }
  }

  lemma RowIsPart(pairs: seq<Contact>, g: string, lo: nat, hi: nat)
    requires lo <= hi <= |pairs| && forall i :: 0 <= i < |pairs| ==> (pairs[i].gw == g <==> lo <= i < hi)
    ensures Row(Members(pairs), g) == Members(pairs[lo..hi])
  {
    var part := pairs[lo..hi];
    forall c | c in Row(Members(pairs), g) ensures c in Members(part) {
      var i :| 0 <= i < |pairs| && pairs[i] == c;
      assert part[i - lo] == c;
    }
    forall c | c in Members(part) ensures c in Row(Members(pairs), g) {
      var i :| 0 <= i < |part| && part[i] == c;
      assert pairs[lo + i] == c;
    }
  }

  lemma SharedRows(poor: string, rich: string, sats: seq<string>, few: nat)
    requires Setting(poor, rich, sats, few)
    ensures |Row(Members(Shared(poor, rich, sats, few)), poor)| == few
    ensures |Row(Members(Shared(poor, rich, sats, few)), rich)| == |sats| - few
  {
    hide Row, Members;
    var pairs := Shared(poor, rich, sats, few);
    SharedFacts(poor, rich, sats, few);
    RowIsPart(pairs, poor, 0, few);
    RowIsPart(pairs, rich, few, |pairs|);
    DistinctSize(pairs[0..few]);
    DistinctSize(pairs[few..|pairs|]);
  }

  /** The policy of the run: one terminal per satellite, enough of them on the ground. */
  function Rules(n: nat): Policy {
    Policy(0, 0, 1, n, 2.0)
  }

  /** What the frames have recorded before the last one. */
  ghost predicate Recorded(selected: map<Contact, real>, pairs: seq<Contact>, few: nat) {
    && few + 2 <= |pairs| && selected.Keys == Members(pairs)
    && forall c :: c in selected ==> selected[c] == if c == pairs[few] || c == pairs[few + 1] then 0.0 else 2.0
  }

  lemma ReadyThen(poor: string, rich: string, sats: seq<string>, few: nat, selected: map<Contact, real>,
                  eligible: set<Contact>)
    requires Setting(poor, rich, sats, few) && Recorded(selected, Shared(poor, rich, sats, few), few)
    requires eligible == Members(Seen(poor, rich, sats, few))
    ensures var pairs := Shared(poor, rich, sats, few);
            && Ready(eligible, selected, rich, 3.0, 2.0) == {pairs[few], pairs[few + 1]}
            && |Ready(eligible, selected, rich, 3.0, 2.0)| == 2
            && Ready(eligible, selected, poor, 3.0, 2.0) == {}
  {
    SharedFacts(poor, rich, sats, few);
    var pairs := Shared(poor, rich, sats, few);
    assert pairs[few] in Members(pairs) && pairs[few + 1] in Members(pairs) && pairs[few] != pairs[few + 1];
    assert Ready(eligible, selected, rich, 3.0, 2.0) == {pairs[few], pairs[few + 1]};
  }

  lemma SettingPresses(poor: string, rich: string, sats: seq<string>, few: nat, selected: map<Contact, real>, n: nat)
    requires Setting(poor, rich, sats, few) && Recorded(selected, Shared(poor, rich, sats, few), few)
    ensures Pressed(Members(Seen(poor, rich, sats, few)), selected, 3.0, Rules(n))
  {
    var pairs, eligible := Shared(poor, rich, sats, few), Members(Seen(poor, rich, sats, few));
    SharedFacts(poor, rich, sats, few);
    SharedRows(poor, rich, sats, few);
    ReadyThen(poor, rich, sats, few, selected, eligible);
    assert eligible * selected.Keys == Members(pairs);
    assert pairs[few] == Contact(sats[few], rich);
    assert Presses(eligible, selected, 3.0, Rules(n), poor, rich, sats[few]);
  }

  /** Whoever loses service in the last frame is `rich`. */
  lemma RichLoses(poor: string, rich: string, sats: seq<string>, few: nat, selected: map<Contact, real>,
                  up: set<Contact>)
    requires Setting(poor, rich, sats, few) && Recorded(selected, Shared(poor, rich, sats, few), few)
    requires !StillUp(Members(Seen(poor, rich, sats, few)), selected, up, 3.0, 2.0)
    ensures |Row(up, rich)| <= 1
  {
    var eligible := Members(Seen(poor, rich, sats, few));
    ReadyThen(poor, rich, sats, few, selected, eligible);
    forall g | g != poor && g != rich ensures Ready(eligible, selected, g, 3.0, 2.0) == {} {
    }
    var g :| Min(2, |Ready(eligible, selected, g, 3.0, 2.0)|) > |Row(up, g)|;
    assert g == rich;
  }

  lemma {:induction false} UpBefore(history: seq<Sample>, rich: string, poor: string, sats: seq<string>, few: nat,
                                    up: set<Contact>)
    requires Setting(poor, rich, sats, few) && history != [] && history[|history| - 1].offset == 2.0
    requires Recorded(SelectedAfter(history), Shared(poor, rich, sats, few), few)
    requires forall p :: p in up <==> Operational(history, p, 2.0)
    ensures |Row(up, rich)| == 2
  {
    hide SelectedAfter;
    var pairs := Shared(poor, rich, sats, few);
    assert pairs[few] in Members(pairs) && pairs[few + 1] in Members(pairs) && pairs[few] != pairs[few + 1];
    assert Row(up, rich) == {pairs[few], pairs[few + 1]};
  }

  /** Three frames record what the fourth one needs. */
  method Prepare(poor: string, rich: string, sats: seq<string>, few: nat) returns (contacts: Contacts, up: set<Contact>)
    requires Setting(poor, rich, sats, few)
    ensures fresh(contacts) && contacts.Valid() && contacts.policy == Rules(|sats|) && contacts.sites == {poor, rich}
    ensures |contacts.history| == 3 && forall i :: 0 <= i < 3 ==> contacts.history[i].offset == i as real
    ensures Recorded(contacts.selected, Shared(poor, rich, sats, few), few)
    ensures contacts.history[2].chosen == Members(Shared(poor, rich, sats, few))
    ensures |Row(up, rich)| == 2 && forall p :: p in up <==> Operational(contacts.history, p, 2.0)
  {
    hide Proper, Row, Operational, Contacts.Valid, Increasing, Fits, Distinct, Setting, SelectedAfter, Carry, Recorded,
         Members;
    SettingSize(poor, rich, sats, few);
    SharedFacts(poor, rich, sats, few);
    var pairs := Shared(poor, rich, sats, few);
    var first := pairs[few..few + 2];
    contacts := new Contacts(Rules(|sats|), {poor, rich});
    StartsEmpty(contacts);
    up := TakeAll(contacts, first, 0.0);
    up := TakeAll(contacts, first, 1.0);
    up := TakeAll(contacts, pairs, 2.0);
    Carried(pairs, few, first);
    ValidSelected(contacts);
    UpBefore(contacts.history, rich, poor, sats, few, up);
  }

  lemma StartsEmpty(contacts: Contacts)
    requires contacts.Valid() && contacts.history == []
    ensures contacts.selected == map[]
  {
  }

  lemma ValidSelected(contacts: Contacts)
    requires contacts.Valid()
    ensures contacts.selected == SelectedAfter(contacts.history)
  {
  }

  lemma Carried(pairs: seq<Contact>, few: nat, first: seq<Contact>)
    requires few + 2 <= |pairs| && first == pairs[few..few + 2]
    ensures var once := Carry(map[], Sample(0.0, Members(first)));
            Recorded(Carry(Carry(once, Sample(1.0, Members(first))), Sample(2.0, Members(pairs))), pairs, few)
  {
    assert first == [pairs[few], pairs[few + 1]];
  }

  /** In the fourth frame of the run `rich` falls from two operational feeder links to one or none, although both are
      still eligible. */
  method ServiceLost(poor: string, rich: string, sats: seq<string>, few: nat)
    returns (contacts: Contacts, before: set<Contact>, up: set<Contact>)
    requires Setting(poor, rich, sats, few)
    ensures contacts.Valid() && |contacts.history| == 4
            && forall i :: 0 <= i < 4 ==> contacts.history[i].offset == i as real
    ensures |Row(contacts.history[2].chosen, poor)| == few && |Row(contacts.history[2].chosen, rich)| == |sats| - few
    ensures forall p :: p in before <==> Operational(contacts.history[..3], p, contacts.policy.acquisition)
    ensures forall p :: p in up <==> Operational(contacts.history, p, contacts.policy.acquisition)
    ensures |Row(before, rich)| == 2 && |Row(up, rich)| <= 1
    ensures contacts.history[2].chosen <= PairsOf(Listing(Seen(poor, rich, sats, few)), false)
  {
    hide Proper, Row, Operational, Increasing, Fits, Distinct, Setting, PairsOf, WellFormed, Recorded, Pressed,
         StillUp, SelectedAfter;
    SettingSize(poor, rich, sats, few);
    contacts, before := Prepare(poor, rich, sats, few);
    SharedFacts(poor, rich, sats, few);
    SharedRows(poor, rich, sats, few);
    ghost var history := contacts.history;
    ListingPairs(Seen(poor, rich, sats, few), contacts.sites);
    SettingPresses(poor, rich, sats, few, contacts.selected, |sats|);
    ghost var selected := contacts.selected;
    var feeders, isl;
    feeders, isl, up := contacts.Frame(Listing(Seen(poor, rich, sats, few)), {}, 3.0);
    RichLoses(poor, rich, sats, few, selected, up);
    assert contacts.history[..3] == history;
  }

  lemma SettingSize(poor: string, rich: string, sats: seq<string>, few: nat)
    requires Setting(poor, rich, sats, few)
    ensures few + 2 < |sats|
  {
  }

  /** The names "s", "ss", "sss", ... */
  function Series(n: nat): (names: seq<string>)
    ensures |names| == n && Distinct(names) && forall i :: 0 <= i < n ==> names[i] != "" && names[i][0] == 's'
  {
    var names := seq(n, i requires 0 <= i < n => seq(i + 1, _ => 's'));
    assert forall i :: 0 <= i < n ==> |names[i]| == i + 1 && names[i][0] == 's';
    names
  }

  /** Every pair of counts that is not balanced has such a run. */
  method UnbalancedLosesService(many: nat, few: nat)
    returns (contacts: Contacts, before: set<Contact>, up: set<Contact>)
    requires many > Max(2, few + 1)
    ensures contacts.Valid() && |contacts.history| == 4
    ensures |Row(contacts.history[2].chosen, "a")| == few && |Row(contacts.history[2].chosen, "b")| == many
    ensures forall p :: p in before <==> Operational(contacts.history[..3], p, contacts.policy.acquisition)
    ensures forall p :: p in up <==> Operational(contacts.history, p, contacts.policy.acquisition)
    ensures |Row(before, "b")| == 2 && |Row(up, "b")| <= 1
  {
    hide Row, Operational, PairsOf, Contacts.Valid;
    var sats := Series(few + many);
    assert forall i :: 0 <= i < |sats| ==> sats[i] != "a" && sats[i] != "b";
    contacts, before, up := ServiceLost("a", "b", sats, few);
  }
}
