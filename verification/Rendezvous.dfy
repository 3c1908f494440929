/** Rendezvous assignment of a shard to controllers: the best of every region first, then the best of
    the rest, by a score per shard and controller. */
module Rendezvous {
  import opened Basics
  import opened Names

  datatype Controller = Controller(id: string, region: string, healthy: bool)

  /** Higher scores first, then smaller IDs. The rest of the record only makes the order total. */
  function Better(score: string -> int): (Controller, Controller) -> bool {
    (a: Controller, b: Controller) =>
      if score(a.id) != score(b.id) then score(a.id) > score(b.id)
      else if a.id != b.id then Less(a.id, b.id)
      else if a.region != b.region then Less(a.region, b.region)
      else a.healthy && !b.healthy
  }

  lemma BetterLinear(score: string -> int)
    ensures Linear(Better(score))
  {
    LessLinear();
    var less := Better(score);
    forall a, b ensures less(a, b) || a == b || less(b, a) {
      LessConnected(a.id, b.id);
      LessConnected(a.region, b.region);
    }
    forall a, b, c | less(a, b) && less(b, c) ensures less(a, c) {
      BetterTransitive(score, a, b, c);
    }
  }

  lemma BetterTransitive(score: string -> int, a: Controller, b: Controller, c: Controller)
    requires Better(score)(a, b) && Better(score)(b, c)
    ensures Better(score)(a, c)
  {
    LessAsymmetric(a.id, b.id);
    LessAsymmetric(a.region, b.region);
    if Less(a.id, b.id) && Less(b.id, c.id) {
      LessTransitive(a.id, b.id, c.id);
      LessIrreflexive(a.id);
    }
    if Less(a.region, b.region) && Less(b.region, c.region) {
      LessTransitive(a.region, b.region, c.region);
      LessIrreflexive(a.region);
    }
  }

  /** The first controller of every region not in `taken`, in ranking order. */
  function Firsts(ranked: seq<Controller>, taken: set<string>): seq<Controller> {
    if ranked == [] then []
    else if ranked[0].region in taken then Firsts(ranked[1..], taken)
    else [ranked[0]] + Firsts(ranked[1..], taken + {ranked[0].region})
  }

  /** All others, in ranking order. */
  function Others(ranked: seq<Controller>, taken: set<string>): seq<Controller> {
    if ranked == [] then []
    else if ranked[0].region in taken then [ranked[0]] + Others(ranked[1..], taken)
    else Others(ranked[1..], taken + {ranked[0].region})
  }

  /** The preference order of a shard. */
  function Preference(ranked: seq<Controller>): seq<Controller> {
    Firsts(ranked, {}) + Others(ranked, {})
  }

  lemma {:induction false} Complete(ranked: seq<Controller>, taken: set<string>)
    ensures multiset(Firsts(ranked, taken)) + multiset(Others(ranked, taken)) == multiset(ranked)
    ensures |Firsts(ranked, taken)| + |Others(ranked, taken)| == |ranked|
  {
    if ranked != [] {
      assert ranked == [ranked[0]] + ranked[1..];
      Complete(ranked[1..], if ranked[0].region in taken then taken else taken + {ranked[0].region});
    }
  }

  function Without(s: seq<Controller>, i: nat): (r: seq<Controller>)
    requires i < |s|
    ensures |r| == |s| - 1
  {
    s[..i] + s[i + 1..]
  }

  function With(s: seq<Controller>, i: nat, x: Controller): (r: seq<Controller>)
    requires i <= |s|
    ensures |r| == |s| + 1
  {
    s[..i] + [x] + s[i..]
  }

  // ---- removing one controller ---------------------------------------------------------------

  /** What the removal of a controller does to the two parts of the preference order: it was among
      the others; it was first of its region with nobody behind it; or the next one of its region,
      at position `q` of the others, moves up to position `r` of the firsts. */
  datatype Change = FromOthers(k: nat) | Vacated(p: nat) | Replaced(p: nat, q: nat, r: nat)

  ghost predicate Explains(change: Change, y: Controller, f: seq<Controller>, o: seq<Controller>, f': seq<Controller>,
                           o': seq<Controller>)
  {
    match change
    case FromOthers(k) => k < |o| && o[k] == y && f' == f && o' == Without(o, k)
    case Vacated(p) => p < |f| && f[p] == y && f' == Without(f, p) && o' == o
    case Replaced(p, q, r) =>
      p < |f| && f[p] == y && q < |o| && p <= r <= |f| - 1 && f' == With(Without(f, p), r, o[q]) && o' == Without(o, q)
  }

  /** Freeing a region: either nobody of it is left, or the next one of it becomes a first. */
  ghost predicate Frees(found: bool, q: nat, r: nat, f: seq<Controller>, o: seq<Controller>, f': seq<Controller>,
                        o': seq<Controller>)
  {
    if found then q < |o| && r <= |f| && f' == With(f, r, o[q]) && o' == Without(o, q)
    else f' == f && o' == o
  }

  lemma FreesSkip(h: Controller, found: bool, q: nat, r: nat, f: seq<Controller>, o: seq<Controller>,
                  f': seq<Controller>, o': seq<Controller>)
    requires Frees(found, q, r, f, o, f', o')
    ensures Frees(found, q + 1, r, f, [h] + o, f', [h] + o')
  {
    if found {
      assert ([h] + o)[q + 1] == o[q] && ([h] + o)[..q + 1] == [h] + o[..q] && ([h] + o)[q + 2..] == o[q + 1..];
    }
  }

  lemma FreesTake(h: Controller, found: bool, q: nat, r: nat, f: seq<Controller>, o: seq<Controller>,
                  f': seq<Controller>, o': seq<Controller>)
    requires Frees(found, q, r, f, o, f', o')
    ensures Frees(found, q, r + 1, [h] + f, o, [h] + f', o')
  {
    if found {
      assert ([h] + f)[..r + 1] == [h] + f[..r] && ([h] + f)[r + 1..] == f[r..];
    }
  }

  lemma FreesNothing()
    ensures Frees(false, 0, 0, [], [], [], [])
  {
  }

  lemma FreesNext(h: Controller, f: seq<Controller>, o: seq<Controller>)
    ensures Frees(true, 0, 0, f, [h] + o, [h] + f, o)
  {
  }

  lemma {:induction false} FreeRegion(ranked: seq<Controller>, taken: set<string>, region: string)
    returns (found: bool, q: nat, r: nat)
    requires region !in taken
    ensures Frees(found, q, r, Firsts(ranked, taken + {region}), Others(ranked, taken + {region}),
                  Firsts(ranked, taken), Others(ranked, taken))
    decreases |ranked|
  {
    hide Frees;
    if ranked == [] {
      FreesNothing();
      return false, 0, 0;
    }
    var h, tail := ranked[0], ranked[1..];
    if h.region == region {
      // the next one of the region: it moves from the head of the others to the head of the firsts
      FreesNext(h, Firsts(tail, taken + {region}), Others(tail, taken + {region}));
      return true, 0, 0;
    }
    if h.region in taken {
      found, q, r := FreeRegion(tail, taken, region);
      FreesSkip(h, found, q, r, Firsts(tail, taken + {region}), Others(tail, taken + {region}), Firsts(tail, taken),
                Others(tail, taken));
      q := q + 1;
    } else {
      var more := taken + {h.region};
      assert more + {region} == taken + {region} + {h.region};
      found, q, r := FreeRegion(tail, more, region);
      FreesTake(h, found, q, r, Firsts(tail, more + {region}), Others(tail, more + {region}), Firsts(tail, more),
                Others(tail, more));
      r := r + 1;
    }
  }

  lemma {:induction false} Removal(ranked: seq<Controller>, taken: set<string>, i: nat) returns (change: Change)
    requires i < |ranked|
    ensures Explains(change, ranked[i], Firsts(ranked, taken), Others(ranked, taken),
                     Firsts(Without(ranked, i), taken), Others(Without(ranked, i), taken))
    decreases |ranked|
  {
    var h, tail := ranked[0], ranked[1..];
    if i == 0 {
      assert Without(ranked, 0) == tail;
      if h.region in taken {
        return FromOthers(0);
      }
      var found, q, r := FreeRegion(tail, taken, h.region);
      change := if found then Replaced(0, q, r) else Vacated(0);
      assert Without(Firsts(ranked, taken), 0) == Firsts(tail, taken + {h.region});
    } else {
      var rest := Without(ranked, i);
      assert rest[0] == h && rest[1..] == Without(tail, i - 1);
      var taken' := if h.region in taken then taken else taken + {h.region};
      var inner := Removal(tail, taken', i - 1);
      change := Shift(inner, h, h.region in taken, ranked[i], Firsts(tail, taken'), Others(tail, taken'),
                      Firsts(Without(tail, i - 1), taken'), Others(Without(tail, i - 1), taken'));
    }
  }

  lemma ShiftWithout(h: Controller, s: seq<Controller>, i: nat)
    requires i < |s|
    ensures Without([h] + s, i + 1) == [h] + Without(s, i) && ([h] + s)[i + 1] == s[i]
  {
  }

  lemma ShiftWith(h: Controller, s: seq<Controller>, i: nat, x: Controller)
    requires i <= |s|
    ensures With([h] + s, i + 1, x) == [h] + With(s, i, x)
  {
  }

  /** The same change one place further back, behind a controller `h` that stays. */
  lemma Shift(inner: Change, h: Controller, other: bool, y: Controller,
              f: seq<Controller>, o: seq<Controller>, f': seq<Controller>, o': seq<Controller>) returns (change: Change)
    requires Explains(inner, y, f, o, f', o')
    ensures if other then Explains(change, y, f, [h] + o, f', [h] + o')
              else Explains(change, y, [h] + f, o, [h] + f', o')
  {
    hide Without, With;
    match inner {
      case FromOthers(k) =>
        ShiftWithout(h, o, k);
      case Vacated(p) =>
        ShiftWithout(h, f, p);
      case Replaced(p, q, r) =>
        ShiftWithout(h, o, q);
        ShiftWithout(h, f, p);
        ShiftWith(h, Without(f, p), r, o[q]);
    }
    match inner {
      case FromOthers(k) => change := if other then FromOthers(k + 1) else inner;
      case Vacated(p) => change := if other then inner else Vacated(p + 1);
      case Replaced(p, q, r) => change := if other then Replaced(p, q + 1, r) else Replaced(p + 1, q, r + 1);
    }
  }

  // ---- stability -----------------------------------------------------------------------------

  function Owners(ranked: seq<Controller>, replicas: nat): seq<Controller>
    requires replicas <= |ranked|
  {
    Complete(ranked, {});
    Preference(ranked)[..replicas]
  }

  function SetOf(s: seq<Controller>): set<Controller> {
    set c | c in s
  }

  ghost predicate Distinct(s: seq<Controller>) {
    forall i, j :: 0 <= i < j < |s| ==> s[i] != s[j]
  }

  /** The position of an element. */
  ghost function IndexOf(s: seq<Controller>, y: Controller): (i: nat)
    requires y in s
    ensures i < |s| && s[i] == y
  {
    if s[0] == y then 0 else 1 + IndexOf(s[1..], y)
  }

  lemma {:induction false} DistinctByMultiset(s: seq<Controller>, t: seq<Controller>)
    requires multiset(s) == multiset(t) && Distinct(s)
    ensures Distinct(t)
  {
    forall i, j | 0 <= i < j < |t| ensures t[i] != t[j] {
      if t[i] == t[j] {
        Twice(t, i, j);
        Once(s, t[i]);
      }
    }
  }

  lemma {:induction false} Twice(t: seq<Controller>, i: nat, j: nat)
    requires i < j < |t| && t[i] == t[j]
    ensures multiset(t)[t[i]] >= 2
  {
    assert t == t[..i] + [t[i]] + t[i + 1..j] + [t[j]] + t[j + 1..];
  }

  lemma {:induction false} Once(s: seq<Controller>, x: Controller)
    requires Distinct(s)
    ensures multiset(s)[x] <= 1
  {
    if s != [] {
      Once(s[1..], x);
      assert s == [s[0]] + s[1..];
      if s[0] == x {
        assert x !in s[1..];
      }
    }
  }

  /** `after` is `before` without its element `p`, and possibly with one other element moved up, but
      not past the gap. */
  ghost predicate Closes(before: seq<Controller>, after: seq<Controller>, p: nat, moved: bool, from: nat, to: nat) {
    && p < |before|
    && if moved then p <= to <= from < |before| - 1 && after == MoveUp(Without(before, p), from, to)
       else after == Without(before, p)
  }

  function MoveUp(t: seq<Controller>, from: nat, to: nat): (u: seq<Controller>)
    requires to <= from < |t|
    ensures |u| == |t|
    ensures u[to] == t[from]
    ensures forall i :: 0 <= i < to ==> u[i] == t[i]
    ensures forall i :: to <= i < from ==> u[i + 1] == t[i]
    ensures forall i :: from < i < |t| ==> u[i] == t[i]
  {
    t[..to] + [t[from]] + t[to..from] + t[from + 1..]
  }

  lemma WithoutAt(s: seq<Controller>, p: nat)
    requires p < |s|
    ensures forall i :: 0 <= i < p ==> Without(s, p)[i] == s[i]
    ensures forall i :: p <= i < |s| - 1 ==> Without(s, p)[i] == s[i + 1]
  {
    forall i | p <= i < |s| - 1 ensures Without(s, p)[i] == s[i + 1] {
      assert Without(s, p)[i] == s[p + 1..][i - p];
    }
  }

  /** Places before the gap are untouched. */
  lemma StableList(before: seq<Controller>, after: seq<Controller>, p: nat, moved: bool, from: nat, to: nat, k: nat)
    requires Closes(before, after, p, moved, from, to) && k <= p
    ensures after[..k] == before[..k]
  {
    hide Without, MoveUp;
    WithoutAt(before, p);
    forall i | 0 <= i < k ensures after[i] == before[i] {
      assert Without(before, p)[i] == before[i];
    }
  }

  /** Everybody else among the first `k` stays among the first `k`. */
  lemma StableSet(before: seq<Controller>, after: seq<Controller>, p: nat, moved: bool, from: nat, to: nat, k: nat)
    requires Closes(before, after, p, moved, from, to) && p < k < |before|
    ensures forall c :: c in before[..k] && c != before[p] ==> c in after[..k]
  {
    hide Without, MoveUp;
    WithoutAt(before, p);
    forall c | c in before[..k] && c != before[p] ensures c in after[..k] {
      var i :| 0 <= i < k && before[i] == c;
      var j := if i < p then i else i - 1;
      assert Without(before, p)[j] == c;
      var at := if !moved || j < to || j > from then j else if j == from then to else j + 1;
      assert after[at] == c && at < k;
      assert after[..k][at] == c;
    }
  }

  lemma RemovalFromOthers(f: seq<Controller>, o: seq<Controller>, k: nat)
    requires k < |o|
    ensures Without(f + o, |f| + k) == f + Without(o, k)
  {
  }

  lemma RemovalFromFirsts(f: seq<Controller>, o: seq<Controller>, p: nat)
    requires p < |f|
    ensures Without(f + o, p) == Without(f, p) + o
  {
  }

  lemma PromotionMovesUp(f: seq<Controller>, o: seq<Controller>, q: nat, r: nat)
    requires q < |o| && r <= |f|
    ensures With(f, r, o[q]) + Without(o, q) == MoveUp(f + o, |f| + q, r)
  {
    var t := f + o;
    assert t[..r] == f[..r] && t[|f| + q] == o[q];
    assert t[r..|f| + q] == f[r..] + o[..q] && t[|f| + q + 1..] == o[q + 1..];
  }

  /** The preference order after a removal. */
  lemma PreferenceAfterRemoval(ranked: seq<Controller>, i: nat) returns (p: nat, moved: bool, from: nat, to: nat)
    requires i < |ranked|
    ensures |Preference(ranked)| == |ranked| && p < |ranked| && Preference(ranked)[p] == ranked[i]
    ensures Closes(Preference(ranked), Preference(Without(ranked, i)), p, moved, from, to)
  {
    hide Without, With, MoveUp, Firsts, Others;
    Complete(ranked, {});
    var f, o := Firsts(ranked, {}), Others(ranked, {});
    var change := Removal(ranked, {}, i);
    moved, from, to := false, 0, 0;
    match change {
      case FromOthers(k) =>
        p := |f| + k;
        RemovalFromOthers(f, o, k);
      case Vacated(v) =>
        p := v;
        RemovalFromFirsts(f, o, v);
      case Replaced(v, q, r) =>
        p, moved, from, to := v, true, |f| - 1 + q, r;
        RemovalFromFirsts(f, o, v);
        PromotionMovesUp(Without(f, v), o, q, r);
    }
  }

  /** Removing a controller that owns nothing changes nothing. */
  lemma NonOwnerRemoval(ranked: seq<Controller>, i: nat, replicas: nat)
    requires i < |ranked| && Distinct(ranked) && replicas < |ranked| && ranked[i] !in Owners(ranked, replicas)
    ensures Owners(Without(ranked, i), replicas) == Owners(ranked, replicas)
  {
    hide Without, Firsts, Others;
    var p, moved, from, to := PreferenceAfterRemoval(ranked, i);
    StableList(Preference(ranked), Preference(Without(ranked, i)), p, moved, from, to, replicas);
  }

  /** Removing an owner keeps every other owner and brings in exactly one. */
  lemma OwnerRemoval(ranked: seq<Controller>, i: nat, replicas: nat) returns (heir: Controller)
    requires i < |ranked| && Distinct(ranked) && replicas < |ranked| && ranked[i] in Owners(ranked, replicas)
    ensures heir !in Owners(ranked, replicas)
    ensures SetOf(Owners(Without(ranked, i), replicas)) == SetOf(Owners(ranked, replicas)) - {ranked[i]} + {heir}
  {
    hide Without, Firsts, Others, Closes;
    var p, moved, from, to := PreferenceAfterRemoval(ranked, i);
    var before, after := Preference(ranked), Preference(Without(ranked, i));
    PreferenceDistinct(ranked);
    WithoutDistinct(ranked, i);
    PreferenceDistinct(Without(ranked, i));
    assert p < replicas by {
      var at :| 0 <= at < replicas && before[..replicas][at] == ranked[i];
      assert at == p;
    }
    StableSet(before, after, p, moved, from, to, replicas);
    var was, now := Owners(ranked, replicas), Owners(Without(ranked, i), replicas);
    SizeOf(was);
    SizeOf(now);
    var kept := SetOf(was) - {ranked[i]};
    assert |SetOf(now) - kept| == 1;
    heir :| heir in SetOf(now) - kept;
    assert SetOf(now) - kept == {heir} by {
      Single(SetOf(now) - kept, heir);
    }
    assert heir != ranked[i];
  }

  lemma Single(s: set<Controller>, x: Controller)
    requires |s| == 1 && x in s
    ensures s == {x}
  {
    assert |s - {x}| == 0;
  }

  lemma PreferenceDistinct(ranked: seq<Controller>)
    requires Distinct(ranked)
    ensures Distinct(Preference(ranked)) && |Preference(ranked)| == |ranked|
    ensures forall c :: c in Preference(ranked) <==> c in ranked
  {
    Complete(ranked, {});
    assert multiset(Preference(ranked)) == multiset(ranked);
    DistinctByMultiset(ranked, Preference(ranked));
    forall c ensures c in Preference(ranked) <==> c in ranked {
      assert c in multiset(Preference(ranked)) <==> c in multiset(ranked);
    }
  }

  lemma WithoutDistinct(ranked: seq<Controller>, i: nat)
    requires i < |ranked| && Distinct(ranked)
    ensures Distinct(Without(ranked, i)) && ranked[i] !in Without(ranked, i)
  {
  }

  lemma {:induction false} SizeOf(s: seq<Controller>)
    requires Distinct(s)
    ensures |SetOf(s)| == |s|
  {
    if s != [] {
      var last := |s| - 1;
      SizeOf(s[..last]);
      assert SetOf(s) == SetOf(s[..last]) + {s[last]};
    }
  }

  // ---- regions -------------------------------------------------------------------------------

  function Regions(s: seq<Controller>): set<string> {
    set c | c in s :: c.region
  }

  lemma {:induction false} FirstsCoverRegions(ranked: seq<Controller>, taken: set<string>)
    ensures Regions(Firsts(ranked, taken)) == Regions(ranked) - taken
    ensures forall i, j :: 0 <= i < j < |Firsts(ranked, taken)| ==>
                Firsts(ranked, taken)[i].region != Firsts(ranked, taken)[j].region
  {
    if ranked != [] {
      var h, tail := ranked[0], ranked[1..];
      assert ranked == [h] + tail;
      assert Regions(ranked) == Regions(tail) + {h.region};
      if h.region in taken {
        FirstsCoverRegions(tail, taken);
      } else {
        FirstsCoverRegions(tail, taken + {h.region});
        var f, rest := Firsts(ranked, taken), Firsts(tail, taken + {h.region});
        assert f == [h] + rest;
        assert Regions(f) == Regions(rest) + {h.region};
        forall j | 0 <= j < |rest| ensures rest[j].region != h.region {
          assert rest[j] in rest && rest[j].region in Regions(rest);
        }
      }
    }
  }

  lemma {:induction false} RegionCount(s: seq<Controller>)
    requires forall i, j :: 0 <= i < j < |s| ==> s[i].region != s[j].region
    ensures |Regions(s)| == |s|
  {
    if s != [] {
      var last := |s| - 1;
      RegionCount(s[..last]);
      assert s == s[..last] + [s[last]];
      assert Regions(s) == Regions(s[..last]) + {s[last].region};
      assert s[last].region !in Regions(s[..last]);
    }
  }

  lemma PartsAreRanked(ranked: seq<Controller>, f: seq<Controller>, o: seq<Controller>)
    requires multiset(f) + multiset(o) == multiset(ranked)
    ensures forall c :: c in f || c in o ==> c in ranked
  {
    forall c | c in f || c in o ensures c in ranked {
      assert c in multiset(ranked);
    }
  }

  /** The owners cover as many regions as there are replicas or healthy regions. */
  lemma OwnersCoverRegions(ranked: seq<Controller>, replicas: nat)
    requires replicas <= |ranked|
    ensures |Regions(Owners(ranked, replicas))| == if replicas < |Regions(ranked)| then replicas else |Regions(ranked)|
  {
    hide Firsts, Others;
    var f, o, owners := Firsts(ranked, {}), Others(ranked, {}), Owners(ranked, replicas);
    FirstsCoverRegions(ranked, {});
    RegionCount(f);
    assert Regions(ranked) - {} == Regions(ranked);
    Complete(ranked, {});
    if replicas <= |f| {
      assert owners == f[..replicas];
      RegionCount(f[..replicas]);
    } else {
      assert owners == f + o[..replicas - |f|];
      assert Regions(f) <= Regions(owners);
      PartsAreRanked(ranked, f, o);
      assert Regions(owners) <= Regions(ranked);
      assert Regions(f) == Regions(ranked) && Regions(owners) == Regions(ranked);
    }
  }

  // ---- the assignment ------------------------------------------------------------------------

  function HealthyOf(controllers: seq<Controller>): set<Controller> {
    set c | c in controllers && c.healthy
  }

  function Ranked(healthy: set<Controller>, score: string -> int): (r: seq<Controller>)
    ensures |r| == |healthy| && Distinct(r) && forall c :: c in r <==> c in healthy
  {
    BetterLinear(score);
    var r := Sorted(healthy, Better(score));
    OrderedDistinct(r, Better(score));
    r
  }

  /** Controller IDs are given and unique. */
  ghost predicate ProperIds(controllers: seq<Controller>) {
    && (forall i :: 0 <= i < |controllers| ==> controllers[i].id != "")
    && (forall i, j :: 0 <= i < j < |controllers| ==> controllers[i].id != controllers[j].id)
  }

  /** Skipping the selected ones leaves the others. */
  function Unselected(ranked: seq<Controller>, selected: set<string>): seq<Controller> {
    if ranked == [] then []
    else (if ranked[0].id in selected then [] else [ranked[0]]) + Unselected(ranked[1..], selected)
  }

  function IdsOf(s: seq<Controller>): set<string> {
    set c | c in s :: c.id
  }

  ghost predicate IdsDistinct(s: seq<Controller>) {
    forall i, j :: 0 <= i < j < |s| ==> s[i].id != s[j].id
  }

  lemma {:induction false} FirstsAreRanked(ranked: seq<Controller>, taken: set<string>)
    ensures forall c :: c in Firsts(ranked, taken) ==> c in ranked && c.region !in taken
  {
    if ranked != [] {
      FirstsAreRanked(ranked[1..], if ranked[0].region in taken then taken else taken + {ranked[0].region});
    }
  }

  lemma {:induction false} UnselectedAreOthers(ranked: seq<Controller>, taken: set<string>, selected: set<string>)
    requires IdsDistinct(ranked)
    requires forall i :: 0 <= i < |ranked| ==> (ranked[i].id in selected <==> ranked[i] in Firsts(ranked, taken))
    ensures Unselected(ranked, selected) == Others(ranked, taken)
  {
    if ranked != [] {
      var h, tail := ranked[0], ranked[1..];
      var taken' := if h.region in taken then taken else taken + {h.region};
      FirstsAreRanked(tail, taken');
      FirstsAreRanked(ranked, taken);
      assert h in Firsts(ranked, taken) <==> h.region !in taken;
      forall i | 0 <= i < |tail| ensures tail[i].id in selected <==> tail[i] in Firsts(tail, taken') {
        assert tail[i] == ranked[i + 1] && tail[i] != h;
      }
      UnselectedAreOthers(tail, taken', selected);
    }
  }

  lemma ProperGrows(controllers: seq<Controller>, c: Controller)
    requires ProperIds(controllers) && c.id != "" && c.id !in IdsOf(controllers)
    ensures ProperIds(controllers + [c])
  {
    forall k | 0 <= k < |controllers| ensures controllers[k].id != c.id {
      assert controllers[k] in controllers;
    }
  }

  lemma Improper(controllers: seq<Controller>, i: nat)
    requires i < |controllers| && (controllers[i].id == "" || controllers[i].id in IdsOf(controllers[..i]))
    ensures !ProperIds(controllers)
  {
    if controllers[i].id != "" {
      var c :| c in controllers[..i] && c.id == controllers[i].id;
      var k :| 0 <= k < i && controllers[k] == c;
    }
  }

  /** The healthy ones, unless an ID is missing or repeated. */
  method Healthy(controllers: seq<Controller>) returns (r: Option<set<Controller>>)
    ensures r.Some? <==> ProperIds(controllers)
    ensures r.Some? ==> r.value == HealthyOf(controllers)
  {
    hide ProperIds;
    EmptyIsProper();
    var healthy, seen := {}, {};
    for i := 0 to |controllers|
      invariant ProperIds(controllers[..i]) && healthy == HealthyOf(controllers[..i]) && seen == IdsOf(controllers[..i])
    {
      var c := controllers[i];
      assert controllers[..i + 1] == controllers[..i] + [c];
      if c.id == "" || c.id in seen {
        Improper(controllers, i);
        return None;
      }
      ProperGrows(controllers[..i], c);
      seen := seen + {c.id};
      if c.healthy {
        healthy := healthy + {c};
      }
    }
    assert controllers[..|controllers|] == controllers;
    r := Some(healthy);
  }

  lemma EmptyIsProper()
    ensures ProperIds([])
  {
  }

  /** Assign a shard. The result is the beginning of the shard's preference order over the healthy
      controllers, whatever the order of the input. */
  method Assign(shard: string, controllers: seq<Controller>, replicas: int, score: string -> int)
    returns (r: Option<seq<Controller>>)
    ensures r.Some? <==> shard != "" && replicas > 0 && ProperIds(controllers) && |HealthyOf(controllers)| >= replicas
    ensures r.Some? ==> r.value == Owners(Ranked(HealthyOf(controllers), score), replicas)
  {
    hide *;
    if shard == "" || replicas <= 0 {
      return None;
    }
    var healthy := Healthy(controllers);
    if healthy.None? || |healthy.value| < replicas {
      return None;
    }
    var ranked := Ranked(healthy.value, score);
    RankedIds(controllers, ranked);
    var result := Pick(ranked, replicas);
    r := Some(result);
  }

  lemma RankedIds(controllers: seq<Controller>, ranked: seq<Controller>)
    requires ProperIds(controllers) && Distinct(ranked) && forall c :: c in ranked <==> c in HealthyOf(controllers)
    ensures IdsDistinct(ranked)
  {
    forall i, j | 0 <= i < j < |ranked| ensures ranked[i].id != ranked[j].id {
      assert ranked[i] in ranked && ranked[j] in ranked;
      assert ranked[i] in controllers && ranked[j] in controllers && ranked[i] != ranked[j];
    }
  }

  /** One controller per region, in ranking order, until there are enough. */
  method PickFirsts(ranked: seq<Controller>, replicas: nat) returns (result: seq<Controller>, selected: set<string>)
    requires 0 < replicas
    ensures selected == IdsOf(result)
    ensures if |Firsts(ranked, {})| < replicas then result == Firsts(ranked, {})
              else result == Firsts(ranked, {})[..replicas]
  {
    ghost var firsts := Firsts(ranked, {});
    result := [];
    var regions := {};
    selected := {};
    assert ranked[0..] == ranked;
    for i := 0 to |ranked|
      invariant firsts == result + Firsts(ranked[i..], regions) && |result| < replicas
      invariant selected == IdsOf(result)
    {
      var c := ranked[i];
      assert ranked[i..][0] == c && ranked[i..][1..] == ranked[i + 1..];
      if c.region in regions {
        continue;
      }
      assert result + Firsts(ranked[i..], regions) == result + [c] + Firsts(ranked[i + 1..], regions + {c.region});
      result := result + [c];
      regions := regions + {c.region};
      selected := selected + {c.id};
      if |result| == replicas {
        return;
      }
    }
  }

  /** Whoever is not yet selected, in ranking order, until there are enough. */
  method Fill(ranked: seq<Controller>, start: seq<Controller>, selected: set<string>, replicas: nat)
    returns (result: seq<Controller>)
    requires |start| < replicas <= |start| + |Unselected(ranked, selected)|
    ensures result == (start + Unselected(ranked, selected))[..replicas]
  {
    ghost var all := start + Unselected(ranked, selected);
    result := start;
    assert ranked[0..] == ranked;
    for i := 0 to |ranked|
      invariant all == result + Unselected(ranked[i..], selected) && |result| < replicas
    {
      var c := ranked[i];
      assert ranked[i..][0] == c && ranked[i..][1..] == ranked[i + 1..];
      if c.id in selected {
        continue;
      }
      assert result + Unselected(ranked[i..], selected) == result + [c] + Unselected(ranked[i + 1..], selected);
      result := result + [c];
      if |result| == replicas {
        return;
      }
    }
  }

  /** First one controller per region, then whoever is left, until there are enough. */
  method Pick(ranked: seq<Controller>, replicas: nat) returns (result: seq<Controller>)
    requires IdsDistinct(ranked) && 0 < replicas <= |ranked|
    ensures result == Owners(ranked, replicas)
  {
    hide Firsts, Others, Unselected;
    Complete(ranked, {});
    var selected;
    result, selected := PickFirsts(ranked, replicas);
    if |result| == replicas {
      assert result == (Firsts(ranked, {}) + Others(ranked, {}))[..replicas];
      return;
    }
    SelectedAreFirsts(ranked, result, selected);
    UnselectedAreOthers(ranked, {}, selected);
    result := Fill(ranked, result, selected, replicas);
  }

  lemma SelectedAreFirsts(ranked: seq<Controller>, firsts: seq<Controller>, selected: set<string>)
    requires IdsDistinct(ranked) && firsts == Firsts(ranked, {})
    requires selected == IdsOf(firsts)
    ensures forall i :: 0 <= i < |ranked| ==> (ranked[i].id in selected <==> ranked[i] in firsts)
  {
    FirstsAreRanked(ranked, {});
    forall i | 0 <= i < |ranked| ensures ranked[i].id in selected <==> ranked[i] in firsts {
      if ranked[i].id in selected {
        var c :| c in firsts && c.id == ranked[i].id;
        assert c in ranked;
      }
    }
  }

  /** Taking a controller out of the set takes it out of the ranking and nothing else. */
  lemma RankedWithout(healthy: set<Controller>, score: string -> int, y: Controller) returns (i: nat)
    requires y in healthy
    ensures i < |Ranked(healthy, score)| && Ranked(healthy, score)[i] == y
    ensures Ranked(healthy - {y}, score) == Without(Ranked(healthy, score), i)
  {
    hide Without, Better;
    BetterLinear(score);
    var r, s := Ranked(healthy, score), Ranked(healthy - {y}, score);
    i := IndexOf(r, y);
    WithoutContents(r, i);
    WithoutOrdered(r, i, Better(score));
    OrderedUnique(s, Without(r, i), Better(score));
  }

  lemma WithoutContents(r: seq<Controller>, i: nat)
    requires i < |r| && Distinct(r)
    ensures forall c :: c in Without(r, i) <==> c in r && c != r[i]
  {
    WithoutAt(r, i);
    WithoutDistinct(r, i);
    var t := Without(r, i);
    forall c | c in r && c != r[i] ensures c in t {
      var k :| 0 <= k < |r| && r[k] == c;
      assert t[if k < i then k else k - 1] == c;
    }
  }

  lemma WithoutOrdered(r: seq<Controller>, i: nat, less: (Controller, Controller) -> bool)
    requires i < |r| && Ordered(r, less)
    ensures Ordered(Without(r, i), less)
  {
    WithoutAt(r, i);
  }

  /** If enough healthy controllers remain, losing one that owns nothing leaves the owners as they
      were, and losing an owner keeps all others and brings in exactly one. */
  lemma MinimalDisruption(healthy: set<Controller>, score: string -> int, y: Controller, replicas: nat)
    requires y in healthy && replicas < |healthy|
    ensures var was, now := Owners(Ranked(healthy, score), replicas), Owners(Ranked(healthy - {y}, score), replicas);
            if y in was
            then exists heir :: heir !in was && SetOf(now) == SetOf(was) - {y} + {heir}
            else now == was
  {
    hide Ranked, Owners, Without;
    var i := RankedWithout(healthy, score, y);
    var ranked := Ranked(healthy, score);
    if y in Owners(ranked, replicas) {
      var heir := OwnerRemoval(ranked, i, replicas);
    } else {
      NonOwnerRemoval(ranked, i, replicas);
    }
  }
}
