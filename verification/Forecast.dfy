/** Forecasting: contact windows become future topologies, with one validated plan for every instant at
    which a contact begins or ends. */
module Forecast {
  import opened Basics
  import opened Names
  import opened Fabric
  import opened Planner
  import Policy
  import Validation
  import Changes

  /** A link and the half-open span in which it has contact. */
  datatype Window = Window(link: Link, start: Time, end: Time)
  {
    predicate Valid() {
      link.id != "" && link.source != "" && link.target != "" && start != 0 && start < end
    }

    predicate Active(at: Time) {
      start <= at < end
    }

    /** The link while the contact lasts. */
    function Lit(): Link {
      link.(adminUp := true, operationalUp := true, validUntil := end, availabilityEnd := end)
    }
  }

  ghost predicate IdsDistinct(links: seq<Link>) {
    forall i, j :: 0 <= i < j < |links| ==> links[i].id != links[j].id
  }

  predicate Has(links: seq<Link>, id: string) {
    exists i :: 0 <= i < |links| && links[i].id == id
  }

  predicate Windowed(windows: seq<Window>, id: string) {
    exists k :: 0 <= k < |windows| && windows[k].link.id == id
  }

  predicate Covered(windows: seq<Window>, id: string, at: Time) {
    exists k :: 0 <= k < |windows| && windows[k].link.id == id && windows[k].Active(at)
  }

  // ---- what a forecast topology is -----------------------------------------------------------

  /** The links of the base topology, and after them the ones that only windows mention. */
  function Skeleton(links: seq<Link>, windows: seq<Window>): (r: seq<Link>)
    ensures links <= r
  {
    if windows == [] then links else
      var before := Skeleton(links, windows[..|windows| - 1]);
      var link := windows[|windows| - 1].link;
      if Has(before, link.id) then before else before + [link]
  }

  /** The last window of this link that is active. */
  function LastActive(windows: seq<Window>, id: string, at: Time): (w: Option<Window>)
    ensures w.Some? ==> w.value in windows && w.value.link.id == id && w.value.Active(at)
    ensures w.Some? <==> Covered(windows, id, at)
  {
    if windows == [] then None else
      var last := windows[|windows| - 1];
      if last.link.id == id && last.Active(at) then Some(last) else LastActive(windows[..|windows| - 1], id, at)
  }

  /** A link with the windows seen so far, none of them closed yet. */
  function Paint(link: Link, windows: seq<Window>, at: Time): (r: Link)
    ensures r.id == link.id
  {
    var w := LastActive(windows, link.id, at);
    if w.Some? then w.value.Lit() else link
  }

  /** A link at an instant: as its last active window has it, down if it has windows and none is active,
      and untouched if it has none. */
  function Resolve(link: Link, windows: seq<Window>, at: Time): (r: Link)
    ensures r.id == link.id
  {
    if Windowed(windows, link.id) && !Covered(windows, link.id, at) then link.(operationalUp := false)
    else Paint(link, windows, at)
  }

  function LinksAt(links: seq<Link>, windows: seq<Window>, at: Time): (r: seq<Link>)
    ensures |r| == |Skeleton(links, windows)|
    ensures forall i :: 0 <= i < |r| ==> r[i] == Resolve(Skeleton(links, windows)[i], windows, at)
  {
    var s := Skeleton(links, windows);
    seq(|s|, i requires 0 <= i < |s| => Resolve(s[i], windows, at))
  }

  function TopologyAt(base: Snapshot, windows: seq<Window>, at: Time, validUntil: Time, version: nat): Snapshot {
    Snapshot(version, validUntil, base.nodes, LinksAt(base.links, windows, at))
  }

  lemma {:induction false} SkeletonHas(links: seq<Link>, windows: seq<Window>, id: string)
    ensures Has(Skeleton(links, windows), id) <==> Has(links, id) || Windowed(windows, id)
  {
    if windows != [] {
      var front, last := windows[..|windows| - 1], windows[|windows| - 1];
      SkeletonHas(links, front, id);
      var before, after := Skeleton(links, front), Skeleton(links, windows);
      assert Windowed(windows, id) <==> Windowed(front, id) || last.link.id == id by {
        assert windows == front + [last];
      }
      if Has(before, id) {
        var i :| 0 <= i < |before| && before[i].id == id;
        assert after[i] == before[i];
      } else if last.link.id == id {
        assert after[|before|] == last.link;
      }
    }
  }

  lemma {:induction false} SkeletonDistinct(links: seq<Link>, windows: seq<Window>)
    requires IdsDistinct(links)
    ensures IdsDistinct(Skeleton(links, windows))
  {
    if windows != [] {
      SkeletonDistinct(links, windows[..|windows| - 1]);
    }
  }

  /** A link with windows is in every forecast, and is up exactly at the instants that lie in one of its
      half-open windows. A link without windows is what it was. */
  lemma UpExactlyInWindows(links: seq<Link>, windows: seq<Window>, at: Time, i: nat)
    requires i < |LinksAt(links, windows, at)|
    ensures var link := LinksAt(links, windows, at)[i];
            if Windowed(windows, link.id)
            then link.operationalUp <==> Covered(windows, link.id, at)
            else i < |links| && link == links[i]
  {
    var s := Skeleton(links, windows);
    if !Windowed(windows, s[i].id) && i >= |links| {
      ExtrasWindowed(links, windows, i);
    }
  }

  lemma {:induction false} ExtrasWindowed(links: seq<Link>, windows: seq<Window>, i: nat)
    requires |links| <= i < |Skeleton(links, windows)|
    ensures Windowed(windows, Skeleton(links, windows)[i].id)
  {
    var front, last := windows[..|windows| - 1], windows[|windows| - 1];
    var before := Skeleton(links, front);
    if i < |before| {
      ExtrasWindowed(links, front, i);
      var k :| 0 <= k < |front| && front[k].link.id == before[i].id;
      assert windows[k].link.id == before[i].id;
    } else {
      assert windows[|windows| - 1].link.id == last.link.id;
    }
  }

  lemma WindowedIsPresent(links: seq<Link>, windows: seq<Window>, at: Time, id: string)
    requires Windowed(windows, id)
    ensures Has(LinksAt(links, windows, at), id)
  {
    SkeletonHas(links, windows, id);
    var s := Skeleton(links, windows);
    var i :| 0 <= i < |s| && s[i].id == id;
    assert LinksAt(links, windows, at)[i].id == id;
  }

  // ---- nothing changes between boundaries ----------------------------------------------------

  ghost predicate SameContacts(windows: seq<Window>, a: Time, b: Time) {
    forall k :: 0 <= k < |windows| ==> windows[k].Active(a) == windows[k].Active(b)
  }

  lemma {:induction false} LastActiveSteady(windows: seq<Window>, id: string, a: Time, b: Time)
    requires SameContacts(windows, a, b)
    ensures LastActive(windows, id, a) == LastActive(windows, id, b)
  {
    if windows != [] {
      var last := windows[|windows| - 1];
      assert last.Active(a) == last.Active(b);
      LastActiveSteady(windows[..|windows| - 1], id, a, b);
    }
  }

  lemma LinksSteady(links: seq<Link>, windows: seq<Window>, a: Time, b: Time)
    requires SameContacts(windows, a, b)
    ensures LinksAt(links, windows, a) == LinksAt(links, windows, b)
  {
    var s := Skeleton(links, windows);
    forall i | 0 <= i < |s| ensures LinksAt(links, windows, a)[i] == LinksAt(links, windows, b)[i] {
      LastActiveSteady(windows, s[i].id, a, b);
    }
  }

  /** The instants a forecast is made for: now, and every start or end of a window in the horizon. */
  ghost predicate IsBoundary(windows: seq<Window>, now: Time, limit: Time, t: Time) {
    t == now || (now < t <= limit && exists k :: 0 <= k < |windows| && t in {windows[k].start, windows[k].end})
  }

  ghost predicate Increasing(times: seq<Time>) {
    forall i, j :: 0 <= i < j < |times| ==> times[i] < times[j]
  }

  ghost predicate AllBoundaries(windows: seq<Window>, now: Time, limit: Time, times: seq<Time>) {
    && Increasing(times) && times != [] && times[0] == now
    && forall t :: t in times <==> IsBoundary(windows, now, limit, t)
  }

  /** The last boundary at or before an instant. */
  lemma {:induction false} LastBefore(times: seq<Time>, t: Time) returns (k: nat)
    requires Increasing(times) && times != [] && times[0] <= t
    ensures k < |times| && times[k] <= t && (k + 1 < |times| ==> t < times[k + 1])
  {
    k := |times| - 1;
    if t < times[k] {
      k := LastBefore(times[..k], t);
    }
  }

  lemma NoEdge(windows: seq<Window>, now: Time, limit: Time, times: seq<Time>, k: nat, t: Time, n: nat, edge: Time)
    requires AllBoundaries(windows, now, limit, times) && k < |times| && n < |windows|
    requires times[k] <= t <= limit && (k + 1 < |times| ==> t < times[k + 1])
    requires edge in {windows[n].start, windows[n].end}
    ensures !(times[k] < edge <= t)
  {
    if times[k] < edge <= t {
      assert now <= times[k];
      assert IsBoundary(windows, now, limit, edge);
      var j :| 0 <= j < |times| && times[j] == edge;
      assert false;
    }
  }

  lemma NothingBetween(windows: seq<Window>, now: Time, limit: Time, times: seq<Time>, k: nat, t: Time)
    requires AllBoundaries(windows, now, limit, times) && k < |times|
    requires times[k] <= t <= limit && (k + 1 < |times| ==> t < times[k + 1])
    ensures SameContacts(windows, times[k], t)
  {
    forall n | 0 <= n < |windows| ensures windows[n].Active(times[k]) == windows[n].Active(t) {
      NoEdge(windows, now, limit, times, k, t, n, windows[n].start);
      NoEdge(windows, now, limit, times, k, t, n, windows[n].end);
    }
  }

  // ---- one forecast topology -----------------------------------------------------------------

  /** The index knows every ID among the first links and points at a link that bears it. */
  ghost predicate Indexed(links: seq<Link>, n: nat, byId: map<string, nat>) {
    && n <= |links|
    && (forall i :: 0 <= i < n ==> links[i].id in byId)
    && forall id :: id in byId ==> byId[id] < n && links[byId[id]].id == id
  }

  ghost predicate SameIds(links: seq<Link>, s: seq<Link>) {
    |links| == |s| && forall i :: 0 <= i < |s| ==> links[i].id == s[i].id
  }

  ghost predicate Painted(links: seq<Link>, s: seq<Link>, windows: seq<Window>, at: Time) {
    SameIds(links, s) && (IdsDistinct(s) ==> forall i :: 0 <= i < |s| ==> links[i] == Paint(s[i], windows, at))
  }

  /** Links whose ID is still pending may have to be taken down. */
  ghost predicate Settling(links: seq<Link>, s: seq<Link>, windows: seq<Window>, at: Time, pending: set<string>) {
    SameIds(links, s) &&
    (IdsDistinct(s) ==> forall i :: 0 <= i < |s| ==>
       links[i] == if s[i].id in pending then Paint(s[i], windows, at) else Resolve(s[i], windows, at))
  }

  lemma PaintStep(link: Link, windows: seq<Window>, at: Time)
    requires windows != []
    ensures var last := windows[|windows| - 1];
            Paint(link, windows, at) == if last.link.id == link.id && last.Active(at) then last.Lit()
                                        else Paint(link, windows[..|windows| - 1], at)
  {
  }

  /** A link a window mentions for the first time is appended as the window has it. */
  lemma PaintedAppends(links: seq<Link>, base: seq<Link>, windows: seq<Window>, at: Time, n: nat)
    requires n < |windows| && !Has(links, windows[n].link.id)
    requires Painted(links, Skeleton(base, windows[..n]), windows[..n], at)
    ensures Skeleton(base, windows[..n + 1]) == Skeleton(base, windows[..n]) + [windows[n].link]
    ensures Painted(links + [windows[n].link], Skeleton(base, windows[..n + 1]), windows[..n], at)
  {
    var s := Skeleton(base, windows[..n]);
    assert windows[..n + 1][..n] == windows[..n];
    forall i | 0 <= i < |s| ensures s[i].id != windows[n].link.id {
      assert links[i].id == s[i].id;
    }
    assert !Has(s, windows[n].link.id);
    var t := Skeleton(base, windows[..n + 1]);
    assert t == s + [windows[n].link];
    if IdsDistinct(t) {
      assert IdsDistinct(s) by {
        assert forall i :: 0 <= i < |s| ==> s[i] == t[i];
      }
      SkeletonHas(base, windows[..n], windows[n].link.id);
      assert LastActive(windows[..n], windows[n].link.id, at).None?;
    }
  }

  lemma SkeletonKnows(links: seq<Link>, base: seq<Link>, windows: seq<Window>, n: nat)
    requires n < |windows| && Has(links, windows[n].link.id) && SameIds(links, Skeleton(base, windows[..n]))
    ensures Skeleton(base, windows[..n + 1]) == Skeleton(base, windows[..n])
  {
    assert windows[..n + 1][..n] == windows[..n];
    var i :| 0 <= i < |links| && links[i].id == windows[n].link.id;
    assert Skeleton(base, windows[..n])[i].id == windows[n].link.id;
  }

  /** The window itself is painted over what was there if it is active. */
  lemma PaintedAdvances(links: seq<Link>, s: seq<Link>, windows: seq<Window>, at: Time, n: nat, index: nat)
    requires n < |windows| && index < |links| && links[index].id == windows[n].link.id
    requires Painted(links, s, windows[..n], at)
    ensures Painted(if windows[n].Active(at) then links[index := windows[n].Lit()] else links, s, windows[..n + 1], at)
  {
    hide Paint;
    assert windows[..n + 1][..n] == windows[..n];
    forall i | 0 <= i < |s| && IdsDistinct(s)
      ensures (if windows[n].Active(at) then links[index := windows[n].Lit()] else links)[i]
                == Paint(s[i], windows[..n + 1], at)
    {
      PaintStep(s[i], windows[..n + 1], at);
    }
  }

  lemma SettlingStarts(links: seq<Link>, s: seq<Link>, windows: seq<Window>, at: Time, ids: set<string>)
    requires Painted(links, s, windows, at) && forall id :: Windowed(windows, id) ==> id in ids
    ensures Settling(links, s, windows, at, ids)
  {
  }

  lemma SettlingStep(links: seq<Link>, s: seq<Link>, windows: seq<Window>, at: Time, pending: set<string>, index: nat)
    requires Settling(links, s, windows, at, pending) && index < |links| && links[index].id in pending
    requires Windowed(windows, links[index].id)
    ensures Settling(if Covered(windows, links[index].id, at) then links
                       else links[index := links[index].(operationalUp := false)],
                     s, windows, at, pending - {links[index].id})
  {
  }

  lemma SettledLinks(links: seq<Link>, base: seq<Link>, windows: seq<Window>, at: Time)
    requires Settling(links, Skeleton(base, windows), windows, at, {})
    ensures IdsDistinct(Skeleton(base, windows)) ==> links == LinksAt(base, windows, at)
    ensures !IdsDistinct(Skeleton(base, windows)) ==> !IdsDistinct(links) && !IdsDistinct(LinksAt(base, windows, at))
  {
    var s := Skeleton(base, windows);
    if !IdsDistinct(s) {
      var i, j :| 0 <= i < j < |s| && s[i].id == s[j].id;
      assert links[i].id == links[j].id;
      assert LinksAt(base, windows, at)[i].id == LinksAt(base, windows, at)[j].id;
    }
  }

  predicate AllValid(windows: seq<Window>) {
    forall k :: 0 <= k < |windows| ==> windows[k].Valid()
  }

  method IndexById(links: seq<Link>) returns (byId: map<string, nat>)
    ensures Indexed(links, |links|, byId)
  {
    byId := map[];
    for i := 0 to |links|
      invariant Indexed(links, i, byId)
    {
      byId := byId[links[i].id := i];
    }
  }

  method IsCovered(windows: seq<Window>, id: string, at: Time) returns (active: bool)
    ensures active <==> Covered(windows, id, at)
  {
    for k := 0 to |windows|
      invariant !Covered(windows[..k], id, at)
    {
      if windows[k].link.id == id && windows[k].Active(at) {
        return true;
      }
    }
    assert windows[..|windows|] == windows;
    return false;
  }

  /** Lay every window over the base links in turn. */
  method Overlay(base: seq<Link>, windows: seq<Window>, at: Time)
    returns (ok: bool, links: seq<Link>, byId: map<string, nat>, ids: set<string>)
    ensures ok <==> AllValid(windows)
    ensures ok ==> Painted(links, Skeleton(base, windows), windows, at) && Indexed(links, |links|, byId)
    ensures ok ==> ids <= byId.Keys && forall id :: id in ids <==> Windowed(windows, id)
  {
    hide Painted, Skeleton, Paint;
    links, ids := base, {};
    byId := IndexById(links);
    OverlayStarts(base, windows, at);
    for n := 0 to |windows|
      invariant AllValid(windows[..n])
      invariant Painted(links, Skeleton(base, windows[..n]), windows[..n], at) && Indexed(links, |links|, byId)
      invariant ids <= byId.Keys && forall id :: id in ids <==> Windowed(windows[..n], id)
    {
      var window := windows[n];
      assert windows[..n + 1] == windows[..n] + [window];
      if !window.Valid() {
        return false, links, byId, ids;
      }
      ids := ids + {window.link.id};
      if window.link.id !in byId {
        PaintedAppends(links, base, windows, at, n);
        links := links + [window.link];
        byId := byId[window.link.id := |links| - 1];
      } else {
        PaintedIds(links, base, windows, at, n);
        SkeletonKnows(links, base, windows, n);
      }
      var index := byId[window.link.id];
      PaintedAdvances(links, Skeleton(base, windows[..n + 1]), windows, at, n, index);
      if window.Active(at) {
        links := links[index := window.Lit()];
      }
    }
    assert windows[..|windows|] == windows;
    return true, links, byId, ids;
  }

  lemma OverlayStarts(base: seq<Link>, windows: seq<Window>, at: Time)
    ensures Painted(base, Skeleton(base, windows[..0]), windows[..0], at)
  {
  }

  lemma PaintedIds(links: seq<Link>, base: seq<Link>, windows: seq<Window>, at: Time, n: nat)
    requires n <= |windows| && Painted(links, Skeleton(base, windows[..n]), windows[..n], at)
    ensures SameIds(links, Skeleton(base, windows[..n]))
  {
  }

  /** The topology as the windows will have it at an instant. */
  method SnapshotAt(base: Snapshot, windows: seq<Window>, at: Time, validUntil: Time, version: nat)
    returns (r: Option<Snapshot>)
    ensures r.Some? <==> AllValid(windows) && TopologyAt(base, windows, at, validUntil, version).Valid()
    ensures r.Some? ==> r.value == TopologyAt(base, windows, at, validUntil, version)
  {
    hide Painted, Skeleton, Paint, Settling, LinksAt, Snapshot.Valid, AllValid, Covered;
    var ok, links, byId, ids := Overlay(base.links, windows, at);
    if !ok {
      return None;
    }
    SettlingStarts(links, Skeleton(base.links, windows), windows, at, ids);
    while ids != {}
      invariant Settling(links, Skeleton(base.links, windows), windows, at, ids) && Indexed(links, |links|, byId)
      invariant ids <= byId.Keys && forall id :: id in ids ==> Windowed(windows, id)
      decreases |ids|
    {
      var id :| id in ids;
      var index := byId[id];
      var active := IsCovered(windows, id, at);
      SettlingStep(links, Skeleton(base.links, windows), windows, at, ids, index);
      if !active {
        links := links[index := links[index].(operationalUp := false)];
      }
      ids := ids - {id};
    }
    SettledLinks(links, base.links, windows, at);
    var snapshot := Snapshot(version, validUntil, base.nodes, links);
    DuplicatesInvalid(snapshot);
    DuplicatesInvalid(TopologyAt(base, windows, at, validUntil, version));
    if !snapshot.Valid() {
      return None;
    }
    return Some(snapshot);
  }

  lemma DuplicatesInvalid(s: Snapshot)
    ensures !IdsDistinct(s.links) ==> !s.Valid()
  {
  }

  // ---- the schedule --------------------------------------------------------------------------

  predicate Before(a: Time, b: Time) {
    a < b
  }

  lemma Chronological(times: seq<Time>)
    ensures forall i, j :: 0 <= i < j < |times| ==> SortBy(times, Before)[i] <= SortBy(times, Before)[j]
    ensures forall t :: t in SortBy(times, Before) <==> t in times
  {
    SortAscending(times, Before);
    var r := SortBy(times, Before);
    forall i, j | 0 <= i < j < |times| ensures r[i] <= r[j] {
      assert !Before(r[j], r[i]);
    }
    forall t ensures t in r <==> t in times {
      assert t in r <==> t in multiset(r);
      assert t in times <==> t in multiset(times);
    }
  }

  /** Drop repetitions from an ascending list. */
  method UniqueTimes(input: seq<Time>) returns (output: seq<Time>)
    requires forall i, j :: 0 <= i < j < |input| ==> input[i] <= input[j]
    ensures Increasing(output) && forall t :: t in output <==> t in input
  {
    output := [];
    for i := 0 to |input|
      invariant Increasing(output) && forall t :: t in output <==> t in input[..i]
      invariant forall k :: 0 <= k < |output| ==> exists j :: 0 <= j < i && input[j] == output[k]
    {
      var value := input[i];
      assert input[..i + 1] == input[..i] + [value];
      if |output| == 0 || value != output[|output| - 1] {
        output := output + [value];
      }
    }
    assert input[..|input|] == input;
  }

  method Boundaries(windows: seq<Window>, now: Time, limit: Time) returns (times: seq<Time>)
    requires now <= limit
    ensures AllBoundaries(windows, now, limit, times)
  {
    hide Increasing, SortBy;
    var found: seq<Time> := [now];
    for n := 0 to |windows|
      invariant forall t :: t in found <==> IsBoundary(windows[..n], now, limit, t)
    {
      ghost var was := found;
      assert windows[..n + 1] == windows[..n] + [windows[n]];
      var edges := [windows[n].start, windows[n].end];
      for e := 0 to 2
        invariant forall t :: t in found <==> t in was || (t in edges[..e] && now < t <= limit)
      {
        assert edges[..e + 1] == edges[..e] + [edges[e]];
        if edges[e] > now && edges[e] <= limit {
          found := found + [edges[e]];
        }
      }
      assert edges[..2] == edges;
      MoreBoundaries(windows, now, limit, n, was, found);
    }
    assert windows[..|windows|] == windows;
    Chronological(found);
    times := UniqueTimes(SortBy(found, Before));
    NowIsFirst(windows, now, limit, times);
  }

  lemma MoreBoundaries(windows: seq<Window>, now: Time, limit: Time, n: nat, was: seq<Time>, found: seq<Time>)
    requires n < |windows| && forall t :: t in was <==> IsBoundary(windows[..n], now, limit, t)
    requires forall t :: t in found <==> t in was || (t in [windows[n].start, windows[n].end] && now < t <= limit)
    ensures forall t :: t in found <==> IsBoundary(windows[..n + 1], now, limit, t)
  {
    var more := windows[..n + 1];
    forall t ensures t in found <==> IsBoundary(more, now, limit, t) {
      if t in was && t != now {
        var k :| 0 <= k < n && t in {windows[..n][k].start, windows[..n][k].end};
        assert t in {more[k].start, more[k].end};
      } else if t in [windows[n].start, windows[n].end] {
        assert t in {more[n].start, more[n].end};
      }
    }
  }

  lemma NowIsFirst(windows: seq<Window>, now: Time, limit: Time, times: seq<Time>)
    requires Increasing(times) && forall t :: t in times <==> IsBoundary(windows, now, limit, t)
    ensures AllBoundaries(windows, now, limit, times)
  {
    assert IsBoundary(windows, now, limit, now);
    var i :| 0 <= i < |times| && times[i] == now;
    assert times[0] in times;
    assert IsBoundary(windows, now, limit, times[0]);
  }

  datatype Activation = Activation(topologyAt: Time, activateAt: Time, topology: Snapshot, plan: Plan,
                                   changed: seq<string>)

  datatype Refusal = BadSettings | BadWindow | BadTopology | NoPlan | UnsoundPlan

  datatype Outcome = Scheduled(activations: seq<Activation>) | Refused(reason: Refusal)

  function Next(times: seq<Time>, i: nat): Time {
    if i + 1 < |times| then times[i + 1] else 0
  }

  /** What is promised of the activation for the boundary at one position. */
  ghost predicate Foreseen(a: Activation, base: Snapshot, windows: seq<Window>, times: seq<Time>, i: nat, now: Time,
                           lead: int, address: Addressing, parses: string -> bool)
  {
    && i < |times| && a.topologyAt == times[i]
    && a.topology == TopologyAt(base, windows, times[i], Next(times, i), base.version + i) && a.topology.Valid()
    && a.activateAt == Max(now, times[i] - lead)
    && times[i] < a.plan.expiresAt && SoundWhileItLasts(a, times[i], address, parses)
    && (i + 1 < |times| ==> a.plan.expiresAt <= times[i + 1])
  }

  /** The plan is acceptable on its topology from the boundary until it expires. */
  ghost predicate SoundWhileItLasts(a: Activation, from: Time, address: Addressing, parses: string -> bool) {
    forall t :: from <= t < a.plan.expiresAt ==> Validation.Acceptable(a.plan, a.topology, t, address, parses)
  }

  /** One activation for every boundary, in order. */
  ghost predicate Foreseeing(activations: seq<Activation>, base: Snapshot, windows: seq<Window>, times: seq<Time>,
                             now: Time, lead: int, address: Addressing, parses: string -> bool)
  {
    && |activations| <= |times|
    && (forall i :: 0 <= i < |activations| ==>
            Foreseen(activations[i], base, windows, times, i, now, lead, address, parses))
    && (activations != [] ==> activations[0].changed == [])
    && forall i :: 0 < i < |activations| ==>
           Changes.Lists(activations[i].changed, activations[i - 1].plan, activations[i].plan)
  }

  /** The forecast for a boundary is not a valid topology, or its version number wraps around. */
  ghost predicate BadForecast(base: Snapshot, windows: seq<Window>, times: seq<Time>, i: nat) {
    i < |times| && !TopologyAt(base, windows, times[i], Next(times, i), (base.version + i) % MODULUS).Valid()
  }

  /** On the forecast for a boundary some intent cannot be planned. */
  ghost predicate Unplannable(base: Snapshot, windows: seq<Window>, times: seq<Time>, i: nat, intents: seq<Intent>,
                              config: Config, address: Addressing, parses: string -> bool)
  {
    i < |times| && Halts(TopologyAt(base, windows, times[i], Next(times, i), base.version + i), intents, config,
                         times[i], address, parses)
  }

  ghost predicate Halts(topology: Snapshot, intents: seq<Intent>, config: Config, at: Time, address: Addressing,
                        parses: string -> bool)
  {
    exists planned, left, booked :: Halted(topology, intents, config, at, address, parses, planned, left, booked)
  }

  ghost predicate RangedLink(link: Link) {
    Int64(link.latency) && Int64(link.reliability)
  }

  /** The current plan and one for every contact boundary within the horizon. Intents with distinct
      prefixes never fail the validation of their own forecast. */
  method Schedule(base: Snapshot, windows: seq<Window>, intents: seq<Intent>, now: Time, horizon: int, lead: int,
                  config: Config, address: Addressing, parses: string -> bool, digest: Plan -> string)
    returns (r: Outcome, ghost times: seq<Time>)
    requires base.version < MODULUS
    requires forall i :: 0 <= i < |base.links| ==> RangedLink(base.links[i])
    requires forall k :: 0 <= k < |windows| ==> RangedLink(windows[k].link)
    ensures r == Refused(BadSettings) <==> horizon <= 0 || lead < 0
    ensures r == Refused(BadWindow) <==> horizon > 0 && lead >= 0 && !AllValid(windows)
    ensures r == Refused(BadTopology) ==> exists i :: BadForecast(base, windows, times, i)
    ensures r == Refused(NoPlan) ==> exists i :: Unplannable(base, windows, times, i, intents, config, address, parses)
    ensures r == Refused(UnsoundPlan) ==> !Validation.PrefixesDistinct(intents)
    ensures r.Scheduled? ==> AllBoundaries(windows, now, now + horizon, times) && |r.activations| == |times|
    ensures r.Scheduled? ==> Foreseeing(r.activations, base, windows, times, now, lead, address, parses)
  {
    hide AllBoundaries, Foreseen, TopologyAt, Snapshot.Valid, Validation.Acceptable, Progress, Describes, Conserved,
         Policy.Ranged, SortBy, Halted, Changes.Lists, RangedLink, Validation.PrefixesDistinct;
    times := [];
    if horizon <= 0 || lead < 0 {
      return Refused(BadSettings), times;
    }
    for k := 0 to |windows|
      invariant AllValid(windows[..k])
    {
      if !windows[k].Valid() {
        return Refused(BadWindow), times;
      }
    }
    assert windows[..|windows|] == windows;
    var boundaries := Boundaries(windows, now, now + horizon);
    times := boundaries;
    var output: seq<Activation> := [];
    for i := 0 to |boundaries|
      invariant |output| == i && base.version + i <= MODULUS
      invariant Foreseeing(output, base, windows, times, now, lead, address, parses)
    {
      var at := boundaries[i];
      var next := if i + 1 < |boundaries| then boundaries[i + 1] else 0;
      var snapshot := SnapshotAt(base, windows, at, next, (base.version + i) % MODULUS);
      if snapshot.None? {
        assert BadForecast(base, windows, times, i);
        return Refused(BadTopology), times;
      }
      VersionPositive(base, windows, at, next, (base.version + i) % MODULUS);
      ForecastRanged(base, windows, at, next, base.version + i);
      ForecastUntil(base, windows, at, next, base.version + i);
      var plan, planned, residual, reservations := Planner.Build(snapshot.value, intents, at, config, address, parses,
                                                                 digest);
      BoundariesFollow(windows, now, now + horizon, times, i);
      if plan.Failure? {
        assert Unplannable(base, windows, times, i, intents, config, address, parses);
        return Refused(NoPlan), times;
      }
      PlansAreSound(snapshot.value, intents, plan.value, planned, config, at, address, parses);
      var sound := Validation.Plan(plan.value, snapshot.value, at, address, parses);
      if !sound {
        return Refused(UnsoundPlan), times;
      }
      var activateAt: int := at;
      if at > now {
        activateAt := at - lead;
        if activateAt < now {
          activateAt := now;
        }
      }
      var changed := [];
      if i > 0 {
        changed := Changes.ChangedPrefixes(output[i - 1].plan, plan.value);
      }
      var activation := Activation(at, activateAt, snapshot.value, plan.value, changed);
      StaysSound(activation, intents, planned, config, at, address, parses);
      ForeseenNow(activation, base, windows, times, i, now, lead, address, parses);
      output := output + [activation];
    }
    return Scheduled(output), times;
  }

  lemma BoundariesFollow(windows: seq<Window>, now: Time, limit: Time, times: seq<Time>, i: nat)
    requires AllBoundaries(windows, now, limit, times) && i < |times|
    ensures now <= times[i]
    ensures i + 1 < |times| ==> times[i + 1] > times[i]
  {
  }

  lemma ForeseenNow(a: Activation, base: Snapshot, windows: seq<Window>, times: seq<Time>, i: nat, now: Time, lead: int,
                    address: Addressing, parses: string -> bool)
    requires i < |times| && a.topologyAt == times[i]
    requires a.topology == TopologyAt(base, windows, times[i], Next(times, i), base.version + i) && a.topology.Valid()
    requires a.activateAt == Max(now, times[i] - lead)
    requires times[i] < a.plan.expiresAt && SoundWhileItLasts(a, times[i], address, parses)
    requires i + 1 < |times| ==> a.plan.expiresAt <= times[i + 1]
    ensures Foreseen(a, base, windows, times, i, now, lead, address, parses)
  {
  }

  lemma VersionPositive(base: Snapshot, windows: seq<Window>, at: Time, next: Time, version: nat)
    requires TopologyAt(base, windows, at, next, version).Valid()
    ensures version > 0
  {
  }

  lemma ForecastUntil(base: Snapshot, windows: seq<Window>, at: Time, next: Time, version: nat)
    ensures TopologyAt(base, windows, at, next, version).validUntil == next
  {
  }

  lemma {:induction false} SkeletonRanged(links: seq<Link>, windows: seq<Window>)
    requires forall i :: 0 <= i < |links| ==> RangedLink(links[i])
    requires forall k :: 0 <= k < |windows| ==> RangedLink(windows[k].link)
    ensures forall i :: 0 <= i < |Skeleton(links, windows)| ==> RangedLink(Skeleton(links, windows)[i])
  {
    hide RangedLink;
    if windows != [] {
      SkeletonRanged(links, windows[..|windows| - 1]);
    }
  }

  lemma ForecastRanged(base: Snapshot, windows: seq<Window>, at: Time, next: Time, version: nat)
    requires forall i :: 0 <= i < |base.links| ==> RangedLink(base.links[i])
    requires forall k :: 0 <= k < |windows| ==> RangedLink(windows[k].link)
    ensures Policy.Ranged(TopologyAt(base, windows, at, next, version))
  {
    hide Skeleton;
    SkeletonRanged(base.links, windows);
    var links := LinksAt(base.links, windows, at);
    forall i | 0 <= i < |links| ensures RangedLink(links[i]) {
      var link := Skeleton(base.links, windows)[i];
      var w := LastActive(windows, link.id, at);
      assert RangedLink(link);
      assert w.Some? ==> RangedLink(w.value.link);
    }
  }

  lemma PlansAreSound(snapshot: Snapshot, intents: seq<Intent>, plan: Plan, planned: seq<Planned>, config: Config,
                      at: Time, address: Addressing, parses: string -> bool)
    requires snapshot.Valid() && at < plan.expiresAt && |planned| == |intents|
    requires Progress(snapshot, planned, SortBy(intents, IntentLess), config, at, address, parses, plan.expiresAt)
    requires Describes(snapshot, plan, planned, address)
    ensures Validation.PrefixesDistinct(intents) ==> Validation.Acceptable(plan, snapshot, at, address, parses)
  {
    hide Snapshot.Valid, Validation.Acceptable, SortBy;
    if Validation.PrefixesDistinct(intents) {
      Validation.PlannedPrefixes(snapshot, intents, plan, planned, config, at, address, parses);
      Validation.BuiltPlansAreAcceptable(snapshot, plan, planned, SortBy(intents, IntentLess), config, at, address,
                                         parses, at);
    }
  }

  lemma StaysSound(a: Activation, intents: seq<Intent>, planned: seq<Planned>, config: Config, at: Time,
                   address: Addressing, parses: string -> bool)
    requires a.topology.Valid() && Describes(a.topology, a.plan, planned, address)
    requires Progress(a.topology, planned, SortBy(intents, IntentLess), config, at, address, parses, a.plan.expiresAt)
    requires Validation.Acceptable(a.plan, a.topology, at, address, parses)
    ensures SoundWhileItLasts(a, at, address, parses)
  {
    hide Snapshot.Valid, Describes, Progress, Validation.Acceptable, SortBy;
    forall t | at <= t < a.plan.expiresAt ensures Validation.Acceptable(a.plan, a.topology, t, address, parses) {
      Validation.StaysAcceptable(a.topology, a.plan, planned, SortBy(intents, IntentLess), config, at, address, parses,
                                 t);
    }
  }

  // ---- what a schedule promises --------------------------------------------------------------

  /** For every instant of the horizon there is exactly one activation in charge, the last one whose
      topology is not ahead of the instant, and its nodes and links are those of that instant. */
  lemma HorizonCovered(activations: seq<Activation>, base: Snapshot, windows: seq<Window>, times: seq<Time>, now: Time,
                       limit: Time, lead: int, address: Addressing, parses: string -> bool, t: Time)
    returns (k: nat)
    requires AllBoundaries(windows, now, limit, times) && |activations| == |times| && now <= t <= limit
    requires Foreseeing(activations, base, windows, times, now, lead, address, parses)
    ensures k < |activations| && activations[k].topologyAt <= t
    ensures forall j :: k < j < |activations| ==> t < activations[j].topologyAt
    ensures activations[k].topology.links == LinksAt(base.links, windows, t)
            && activations[k].topology.nodes == base.nodes
  {
    hide Snapshot.Valid, Validation.Acceptable, LinksAt, IsBoundary;
    k := LastBefore(times, t);
    NothingBetween(windows, now, limit, times, k, t);
    LinksSteady(base.links, windows, times[k], t);
    forall j | 0 <= j < |activations| ensures activations[j].topologyAt == times[j] {
      assert Foreseen(activations[j], base, windows, times, j, now, lead, address, parses);
    }
    assert Foreseen(activations[k], base, windows, times, k, now, lead, address, parses);
  }

  /** Versions are consecutive, activations come in order, never before now and never later than the
      topology they prepare. */
  lemma ActivationsInOrder(activations: seq<Activation>, base: Snapshot, windows: seq<Window>, times: seq<Time>,
                           now: Time, limit: Time, lead: int, address: Addressing, parses: string -> bool, i: nat,
                           j: nat)
    requires AllBoundaries(windows, now, limit, times) && |activations| == |times| && i <= j < |times| && lead >= 0
    requires Foreseeing(activations, base, windows, times, now, lead, address, parses)
    ensures activations[i].topology.version + (j - i) == activations[j].topology.version
    ensures now <= activations[i].activateAt <= activations[j].activateAt <= activations[j].topologyAt
    ensures i < j ==> activations[i].topology.validUntil == activations[i + 1].topologyAt
  {
    hide Snapshot.Valid, Validation.Acceptable, LinksAt, IsBoundary;
    assert Foreseen(activations[i], base, windows, times, i, now, lead, address, parses);
    assert Foreseen(activations[j], base, windows, times, j, now, lead, address, parses);
    if i < j {
      assert Foreseen(activations[i + 1], base, windows, times, i + 1, now, lead, address, parses);
    }
  }
}
