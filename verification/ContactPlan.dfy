/** Compiling a table of contact windows into a timeline of link actions. */
module ContactPlan {
  import opened Basics
  import opened Names
  import opened Fabric

  const UP := "link_up"
  const DOWN := "link_down"

  /** One contact: a link and the half-open span, in milliseconds, in which it is up. */
  datatype Row = Row(link: string, source: string, target: string, start: int, end: int, latency: int, capacity: int,
                     riskGroups: set<string>)
  {
    predicate Fits(nodes: seq<Node>) {
      && Named(nodes, source) && Named(nodes, target)
      && 0 <= start < end && latency >= 0 && capacity > 0
    }

    predicate Overlaps(other: Row) {
      link == other.link && start < other.end && other.start < end
    }

    predicate Agrees(existing: Link) {
      existing.source == source && existing.target == target
    }

    /** The link a row introduces. It starts down. */
    function Candidate(): (l: Link)
      ensures l.id == link && !l.operationalUp
    {
      LessLinear();
      Link(link, source, target, true, false, "", latency, capacity, 0, 0, Sorted(riskGroups, Less), 0, 0, 0)
    }
  }

  datatype Action = Action(at: int, kind: string, ids: seq<string>)
  {
    /** The action changes the state of this link. */
    predicate Touches(x: string) {
      (kind == UP || kind == DOWN) && x in ids
    }
  }

  predicate Named(nodes: seq<Node>, id: string) {
    exists i :: 0 <= i < |nodes| && nodes[i].id == id
  }

  /** The link that bears an ID; the last one if several do. */
  function Known(links: seq<Link>, id: string): (r: Option<Link>)
    ensures r.Some? <==> exists i :: 0 <= i < |links| && links[i].id == id
  {
    if links == [] then None
    else if links[|links| - 1].id == id then Some(links[|links| - 1])
    else Known(links[..|links| - 1], id)
  }

  /** The links with those that rows introduce. */
  function Introduced(links: seq<Link>, rows: seq<Row>): (r: seq<Link>)
    ensures links <= r
  {
    if rows == [] then links else
      var before, row := Introduced(links, rows[..|rows| - 1]), rows[|rows| - 1];
      if Known(before, row.link).Some? then before else before + [row.Candidate()]
  }

  ghost predicate Separate(rows: seq<Row>) {
    forall i, j :: 0 <= i < j < |rows| ==> !rows[j].Overlaps(rows[i])
  }

  ghost predicate Compatible(links: seq<Link>, rows: seq<Row>) {
    forall j :: 0 <= j < |rows| ==>
      var existing := Known(Introduced(links, rows[..j]), rows[j].link);
      existing.Some? ==> rows[j].Agrees(existing.value)
  }

  /** Exactly the tables that compile. */
  ghost predicate Compilable(base: Snapshot, rows: seq<Row>) {
    && (forall j :: 0 <= j < |rows| ==> rows[j].Fits(base.nodes))
    && Separate(rows) && Compatible(base.links, rows)
  }

  /** A link is up at exactly the instants of its windows. */
  ghost predicate Covered(rows: seq<Row>, x: string, t: int) {
    exists k :: 0 <= k < |rows| && rows[k].link == x && rows[k].start <= t < rows[k].end
  }

  // ---- grouped actions -----------------------------------------------------------------------

  /** A row asks for this action on this link. */
  ghost predicate Asked(rows: seq<Row>, at: int, kind: string, x: string) {
    exists k :: 0 <= k < |rows| && rows[k].link == x
        && ((kind == UP && rows[k].start == at) || (kind == DOWN && rows[k].end == at))
  }

  ghost predicate Unique(ids: seq<string>) {
    forall i, j :: 0 <= i < j < |ids| ==> ids[i] != ids[j]
  }

  /** The groups hold what the rows ask for, each link once. */
  ghost predicate Grouped(actions: map<(int, string), seq<string>>, rows: seq<Row>) {
    && (forall key, x :: key in actions && x in actions[key] ==> Asked(rows, key.0, key.1, x))
    && (forall key: (int, string), x :: Asked(rows, key.0, key.1, x) ==> key in actions && x in actions[key])
    && (forall key :: key in actions ==> actions[key] != [] && Unique(actions[key]))
  }

  /** The order in which groups are listed: by time, and at one time by the name of the action. */
  predicate KeyLess(a: (int, string), b: (int, string)) {
    a.0 < b.0 || (a.0 == b.0 && Less(a.1, b.1))
  }

  lemma KeyLessLinear()
    ensures Linear(KeyLess)
  {
    LessLinear();
  }

  lemma DownFirst()
    ensures Less(DOWN, UP) && !Less(UP, DOWN)
  {
    DownBeforeUp("link_", "down", "up");
    LessAsymmetric(DOWN, UP);
  }

  lemma {:induction false} DownBeforeUp(common: string, a: string, b: string)
    requires a != [] && b != [] && a[0] < b[0]
    ensures Less(common + a, common + b)
  {
    hide Less;
    if common == [] {
      FirstDiffers(a, b);
      assert common + a == a && common + b == b;
    } else {
      var tail := common[1..];
      DownBeforeUp(tail, a, b);
      SameStart(common[0], tail + a, tail + b);
      assert common + a == [common[0]] + (tail + a) && common + b == [common[0]] + (tail + b);
    }
  }

  lemma FirstDiffers(a: string, b: string)
    requires a != [] && b != [] && a[0] < b[0]
    ensures Less(a, b)
  {
  }

  lemma SameStart(c: char, a: string, b: string)
    requires Less(a, b)
    ensures Less([c] + a, [c] + b)
  {
    assert ([c] + a)[1..] == a && ([c] + b)[1..] == b;
  }

  /** The generated actions, in their own order. */
  ghost predicate Generated(g: seq<Action>, rows: seq<Row>) {
    && (forall i, j :: 0 <= i < j < |g| ==> KeyLess((g[i].at, g[i].kind), (g[j].at, g[j].kind)))
    && (forall i, x :: 0 <= i < |g| ==> (x in g[i].ids <==> Asked(rows, g[i].at, g[i].kind, x)))
    && (forall at, kind, x :: Asked(rows, at, kind, x) ==>
            exists i :: 0 <= i < |g| && g[i].at == at && g[i].kind == kind)
    && (forall i :: 0 <= i < |g| ==> g[i].ids != [] && Unique(g[i].ids))
  }

  predicate Earlier(a: Action, b: Action) {
    a.at < b.at
  }

  lemma GroupsGrow(actions: map<(int, string), seq<string>>, rows: seq<Row>, row: Row)
    requires Grouped(actions, rows) && row.start < row.end
    requires forall k :: 0 <= k < |rows| ==> rows[k].start < rows[k].end && !row.Overlaps(rows[k])
    ensures Grouped(Put(Put(actions, (row.start, UP), row.link), (row.end, DOWN), row.link), rows + [row])
  {
    hide Unique;
    var one := Put(actions, (row.start, UP), row.link);
    var two := Put(one, (row.end, DOWN), row.link);
    var more := rows + [row];
    forall key, x ensures key in two && x in two[key] <==> Asked(more, key.0, key.1, x) {
      AskedGrows(rows, row, key.0, key.1, x);
    }
    NotAskedYet(rows, row);
    PutUnique(actions, (row.start, UP), row.link);
    PutUnique(one, (row.end, DOWN), row.link);
  }

  function Put(actions: map<(int, string), seq<string>>, key: (int, string), x: string): map<(int, string), seq<string>>
  {
    actions[key := (if key in actions then actions[key] else []) + [x]]
  }

  lemma PutUnique(actions: map<(int, string), seq<string>>, key: (int, string), x: string)
    requires forall k :: k in actions ==> actions[k] != [] && Unique(actions[k])
    requires key in actions ==> x !in actions[key]
    ensures forall k :: k in Put(actions, key, x) ==> Put(actions, key, x)[k] != [] && Unique(Put(actions, key, x)[k])
  {
  }

  lemma AskedGrows(rows: seq<Row>, row: Row, at: int, kind: string, x: string)
    ensures Asked(rows + [row], at, kind, x) <==>
              Asked(rows, at, kind, x)
                || (row.link == x && ((kind == UP && row.start == at) || (kind == DOWN && row.end == at)))
  {
    var more := rows + [row];
    if Asked(rows, at, kind, x) {
      var k :| 0 <= k < |rows| && rows[k].link == x
        && ((kind == UP && rows[k].start == at) || (kind == DOWN && rows[k].end == at));
      assert more[k] == rows[k];
    }
    assert more[|rows|] == row;
  }

  /** Windows of one link share neither a start nor an end. */
  lemma NotAskedYet(rows: seq<Row>, row: Row)
    requires row.start < row.end
    requires forall k :: 0 <= k < |rows| ==> rows[k].start < rows[k].end && !row.Overlaps(rows[k])
    ensures !Asked(rows, row.start, UP, row.link) && !Asked(rows, row.end, DOWN, row.link)
  {
  }

  /** Write the groups out in order. */
  method WriteOut(actions: map<(int, string), seq<string>>, ghost rows: seq<Row>) returns (g: seq<Action>)
    requires Grouped(actions, rows)
    ensures Generated(g, rows)
  {
    hide *;
    KeyLessLinear();
    var keys := Sorted(actions.Keys, KeyLess);
    g := [];
    for i := 0 to |keys|
      invariant |g| == i
      invariant forall k :: 0 <= k < i ==> g[k] == Action(keys[k].0, keys[k].1, SortBy(actions[keys[k]], Less))
    {
      assert keys[i] in keys;
      g := g + [Action(keys[i].0, keys[i].1, SortBy(actions[keys[i]], Less))];
    }
    WrittenOut(actions, rows, keys, g);
  }

  lemma WrittenOut(actions: map<(int, string), seq<string>>, rows: seq<Row>, keys: seq<(int, string)>, g: seq<Action>)
    requires Grouped(actions, rows) && Ordered(keys, KeyLess) && (forall k :: k in keys <==> k in actions)
             && |g| == |keys|
    requires forall k :: 0 <= k < |g| ==>
                 keys[k] in actions && g[k] == Action(keys[k].0, keys[k].1, SortBy(actions[keys[k]], Less))
    ensures Generated(g, rows)
  {
    hide Less, SortBy, KeyLess, Unique;
    forall i | 0 <= i < |g| ensures g[i].ids != [] && Unique(g[i].ids) {
      SortedIds(actions[keys[i]]);
    }
    forall i, x | 0 <= i < |g| ensures x in g[i].ids <==> Asked(rows, g[i].at, g[i].kind, x) {
      SortedIds(actions[keys[i]]);
      assert keys[i] == (g[i].at, g[i].kind);
    }
    forall at, kind, x | Asked(rows, at, kind, x)
      ensures exists i :: 0 <= i < |g| && g[i].at == at && g[i].kind == kind
    {
      var key := (at, kind);
      assert Asked(rows, key.0, key.1, x);
      assert key in keys;
      var i :| 0 <= i < |keys| && keys[i] == key;
      assert g[i].at == at;
    }
    forall i, j | 0 <= i < j < |g| ensures KeyLess((g[i].at, g[i].kind), (g[j].at, g[j].kind)) {
      assert keys[i] == (g[i].at, g[i].kind) && keys[j] == (g[j].at, g[j].kind);
    }
  }

  lemma SortedIds(ids: seq<string>)
    requires Unique(ids)
    ensures Unique(SortBy(ids, Less)) && forall x :: x in SortBy(ids, Less) <==> x in ids
  {
    SortKeysDistinct(ids, Less, (x: string) => x);
    forall x ensures x in SortBy(ids, Less) <==> x in ids {
      assert x in ids <==> x in multiset(ids);
      assert x in SortBy(ids, Less) <==> x in multiset(SortBy(ids, Less));
    }
  }

  // ---- compilation ---------------------------------------------------------------------------

  /** The spans recorded so far are those of the rows so far. */
  ghost predicate Recorded(windows: map<string, seq<(int, int)>>, rows: seq<Row>) {
    && (forall k :: 0 <= k < |rows| ==>
            rows[k].link in windows && (rows[k].start, rows[k].end) in windows[rows[k].link])
    && forall id, n :: id in windows && 0 <= n < |windows[id]| ==> Spanned(rows, id, windows[id][n])
  }

  ghost predicate Spanned(rows: seq<Row>, id: string, span: (int, int)) {
    exists k :: 0 <= k < |rows| && rows[k].link == id && (rows[k].start, rows[k].end) == span
  }

  lemma RecordedGrows(windows: map<string, seq<(int, int)>>, rows: seq<Row>, row: Row)
    requires Recorded(windows, rows)
    ensures Recorded(windows[row.link := (if row.link in windows then windows[row.link]
                                            else []) + [(row.start, row.end)]], rows + [row])
  {
    var more := windows[row.link := (if row.link in windows then windows[row.link] else []) + [(row.start, row.end)]];
    var all := rows + [row];
    forall id, n | id in more && 0 <= n < |more[id]| ensures Spanned(all, id, more[id][n]) {
      if id in windows && n < |windows[id]| {
        assert Spanned(rows, id, windows[id][n]);
        var k :| 0 <= k < |rows| && rows[k].link == id && (rows[k].start, rows[k].end) == windows[id][n];
        assert all[k] == rows[k];
      } else {
        assert all[|rows|] == row;
      }
    }
  }

  ghost predicate Looked(byId: map<string, Link>, links: seq<Link>) {
    forall id :: (id in byId <==> Known(links, id).Some?) && (id in byId ==> Known(links, id) == Some(byId[id]))
  }

  lemma LookedGrows(byId: map<string, Link>, links: seq<Link>, link: Link)
    requires Looked(byId, links)
    ensures Looked(byId[link.id := link], links + [link])
  {
    var more := links + [link];
    assert more[..|more| - 1] == links;
    forall id ensures Known(more, id) == if id == link.id then Some(link) else Known(links, id) {
    }
  }

  method LookUp(links: seq<Link>) returns (byId: map<string, Link>)
    ensures Looked(byId, links)
  {
    byId := map[];
    for i := 0 to |links|
      invariant Looked(byId, links[..i])
    {
      LookedGrows(byId, links[..i], links[i]);
      assert links[..i + 1] == links[..i] + [links[i]];
      byId := byId[links[i].id := links[i]];
    }
    assert links[..|links|] == links;
  }

  /** A recorded window meets the new one. */
  method MeetsEarlier(windows: map<string, seq<(int, int)>>, row: Row, ghost rows: seq<Row>) returns (meets: bool)
    requires Recorded(windows, rows)
    ensures meets <==> exists k :: 0 <= k < |rows| && row.Overlaps(rows[k])
  {
    var spans := if row.link in windows then windows[row.link] else [];
    for n := 0 to |spans|
      invariant forall m :: 0 <= m < n ==> !(row.start < spans[m].1 && spans[m].0 < row.end)
    {
      if row.start < spans[n].1 && spans[n].0 < row.end {
        assert Spanned(rows, row.link, spans[n]);
        return true;
      }
    }
    return false;
  }

  lemma CompilableStep(base: Snapshot, rows: seq<Row>, n: nat)
    requires n < |rows|
    ensures Compilable(base, rows[..n + 1]) <==>
              && Compilable(base, rows[..n]) && rows[n].Fits(base.nodes)
              && (forall k :: 0 <= k < n ==> !rows[n].Overlaps(rows[k]))
              && (var existing := Known(Introduced(base.links, rows[..n]), rows[n].link);
                  existing.Some? ==> rows[n].Agrees(existing.value))
  {
    hide Introduced, Known, Row.Fits, Row.Overlaps, Row.Agrees;
    var few, more := rows[..n], rows[..n + 1];
    assert forall k :: 0 <= k < n ==> more[k] == few[k];
    assert forall k :: 0 <= k <= n ==> more[..k] == rows[..k];
    assert forall k :: 0 <= k <= n ==> few[..k] == rows[..k];
    if Compilable(base, more) {
      assert more[n].Fits(base.nodes);
      forall j | 0 <= j < |few| ensures few[j].Fits(base.nodes) {
        assert more[j].Fits(base.nodes);
      }
      forall k | 0 <= k < n ensures !rows[n].Overlaps(rows[k]) {
        assert !more[n].Overlaps(more[k]);
      }
      forall i, j | 0 <= i < j < |few| ensures !few[j].Overlaps(few[i]) {
        assert !more[j].Overlaps(more[i]);
      }
      forall j | 0 <= j < |more|
        ensures Known(Introduced(base.links, rows[..j]), rows[j].link).Some? ==>
                  rows[j].Agrees(Known(Introduced(base.links, rows[..j]), rows[j].link).value)
      {
        assert more[..j] == rows[..j] && more[j] == rows[j];
      }
    }
  }

  /** A table whose beginning does not compile does not compile. */
  lemma NotCompilable(base: Snapshot, rows: seq<Row>, n: nat)
    requires n <= |rows| && !Compilable(base, rows[..n])
    ensures !Compilable(base, rows)
    decreases |rows| - n
  {
    hide Compilable;
    if n == |rows| {
      assert rows[..n] == rows;
    } else {
      CompilableStep(base, rows, n);
      NotCompilable(base, rows, n + 1);
    }
  }

  lemma IntroducedStep(links: seq<Link>, rows: seq<Row>, n: nat)
    requires n < |rows|
    ensures Introduced(links, rows[..n + 1]) ==
              if Known(Introduced(links, rows[..n]), rows[n].link).Some? then Introduced(links, rows[..n])
              else Introduced(links, rows[..n]) + [rows[n].Candidate()]
  {
    assert rows[..n + 1][..n] == rows[..n];
  }

  /** The rows compiled so far. */
  ghost predicate Compiling(base: Snapshot, rows: seq<Row>, links: seq<Link>, byId: map<string, Link>,
                            windows: map<string, seq<(int, int)>>, actions: map<(int, string), seq<string>>)
  {
    && Compilable(base, rows) && links == Introduced(base.links, rows)
    && Looked(byId, links) && Recorded(windows, rows) && Grouped(actions, rows)
  }

  lemma CompilingStarts(base: Snapshot, rows: seq<Row>, byId: map<string, Link>)
    requires Looked(byId, base.links)
    ensures Compiling(base, rows[..0], base.links, byId, map[], map[])
  {
  }

  lemma CompilingAdvances(base: Snapshot, rows: seq<Row>, n: nat, links: seq<Link>, byId: map<string, Link>,
                          windows: map<string, seq<(int, int)>>, actions: map<(int, string), seq<string>>,
                          links': seq<Link>, byId': map<string, Link>)
    requires n < |rows| && Compiling(base, rows[..n], links, byId, windows, actions) && Compilable(base, rows[..n + 1])
    requires if rows[n].link in byId then links' == links && byId' == byId
             else links' == links + [rows[n].Candidate()] && byId' == byId[rows[n].link := rows[n].Candidate()]
    ensures Compiling(base, rows[..n + 1], links', byId',
                      windows[rows[n].link := (if rows[n].link in windows then windows[rows[n].link]
                                                 else []) + [(rows[n].start, rows[n].end)]],
                      Put(Put(actions, (rows[n].start, UP), rows[n].link), (rows[n].end, DOWN), rows[n].link))
  {
    hide Introduced, Known, Recorded, Grouped, Put, Compatible;
    assert rows[..n + 1] == rows[..n] + [rows[n]];
    IntroducedStep(base.links, rows, n);
    RecordedGrows(windows, rows[..n], rows[n]);
    assert rows[..n + 1][n].Fits(base.nodes);
    forall k | 0 <= k < n ensures rows[..n][k].start < rows[..n][k].end && !rows[n].Overlaps(rows[..n][k]) {
      assert rows[..n + 1][k].Fits(base.nodes);
      assert !rows[..n + 1][n].Overlaps(rows[..n + 1][k]);
    }
    GroupsGrow(actions, rows[..n], rows[n]);
    if rows[n].link !in byId {
      LookedGrows(byId, links, rows[n].Candidate());
    }
  }

  /** Compile a table into the base scenario: the links it introduces, and the timeline. */
  method Compile(base: Snapshot, timeline: seq<Action>, rows: seq<Row>)
    returns (r: Option<(Snapshot, seq<Action>)>, ghost generated: seq<Action>)
    ensures r.Some? <==> Compilable(base, rows)
    ensures r.Some? ==> r.value.0 == base.(links := Introduced(base.links, rows))
    ensures r.Some? ==> r.value.1 == SortBy(timeline + generated, Earlier) && Generated(generated, rows)
  {
    hide Compiling, Compilable, Introduced, Known, Grouped, Generated, SortBy, Recorded, Row.Fits, Row.Overlaps,
         Row.Agrees, Looked;
    generated := [];
    var links := base.links;
    var byId := LookUp(links);
    var windows: map<string, seq<(int, int)>>, actions: map<(int, string), seq<string>> := map[], map[];
    CompilingStarts(base, rows, byId);
    for n := 0 to |rows|
      invariant Compiling(base, rows[..n], links, byId, windows, actions)
    {
      var row := rows[n];
      CompilingFacts(base, rows[..n], links, byId, windows, actions, row.link);
      CompilableStep(base, rows, n);
      if !Compilable(base, rows[..n + 1]) {
        NotCompilable(base, rows, n + 1);
      }
      if !row.Fits(base.nodes) {
        return None, generated;
      }
      var meets := MeetsEarlier(windows, row, rows[..n]);
      if meets || (row.link in byId && !row.Agrees(byId[row.link])) {
        return None, generated;
      }
      ghost var before, known := links, byId;
      if row.link !in byId {
        links := links + [row.Candidate()];
        byId := byId[row.link := row.Candidate()];
      }
      CompilingAdvances(base, rows, n, before, known, windows, actions, links, byId);
      windows := windows[row.link := (if row.link in windows then windows[row.link] else []) + [(row.start, row.end)]];
      actions := Put(Put(actions, (row.start, UP), row.link), (row.end, DOWN), row.link);
    }
    assert rows[..|rows|] == rows;
    CompilingFacts(base, rows, links, byId, windows, actions, "");
    var written := WriteOut(actions, rows);
    generated := written;
    r := Some((base.(links := links), SortBy(timeline + written, Earlier)));
  }

  lemma CompilingFacts(base: Snapshot, rows: seq<Row>, links: seq<Link>, byId: map<string, Link>,
                       windows: map<string, seq<(int, int)>>, actions: map<(int, string), seq<string>>, id: string)
    requires Compiling(base, rows, links, byId, windows, actions)
    ensures Compilable(base, rows) && links == Introduced(base.links, rows) && Recorded(windows, rows)
            && Grouped(actions, rows)
    ensures (id in byId <==> Known(links, id).Some?) && (id in byId ==> Known(links, id) == Some(byId[id]))
  {
  }

  // ---- the timeline means what the table says ------------------------------------------------

  /** Whether a link is up after the actions, given whether it was before. */
  ghost function Replayed(actions: seq<Action>, x: string, was: bool): bool {
    if actions == [] then was else
      var last := actions[|actions| - 1];
      if last.Touches(x) then last.kind == UP else Replayed(actions[..|actions| - 1], x, was)
  }

  lemma {:induction false} ReplayedUntouched(actions: seq<Action>, x: string, was: bool)
    requires forall i :: 0 <= i < |actions| ==> !actions[i].Touches(x)
    ensures Replayed(actions, x, was) == was
  {
    if actions != [] {
      ReplayedUntouched(actions[..|actions| - 1], x, was);
    }
  }

  lemma {:induction false} ReplayedLast(actions: seq<Action>, x: string, was: bool, m: nat)
    requires m < |actions| && actions[m].Touches(x) && forall i :: m < i < |actions| ==> !actions[i].Touches(x)
    ensures Replayed(actions, x, was) <==> actions[m].kind == UP
  {
    if m < |actions| - 1 {
      ReplayedLast(actions[..|actions| - 1], x, was, m);
    }
  }

  lemma {:induction false} LastTouch(actions: seq<Action>, x: string) returns (m: int)
    ensures -1 <= m < |actions| && (m >= 0 ==> actions[m].Touches(x))
    ensures forall i :: m < i < |actions| ==> !actions[i].Touches(x)
  {
    m := |actions| - 1;
    if m >= 0 && !actions[m].Touches(x) {
      m := LastTouch(actions[..m], x);
    }
  }

  /** Two actions on a link come in the order of their groups. */
  ghost predicate InTurn(a: Action, b: Action, x: string) {
    a.Touches(x) && b.Touches(x) ==> KeyLess((a.at, a.kind), (b.at, b.kind))
  }

  ghost predicate AllInTurn(actions: seq<Action>, x: string) {
    forall i, j :: 0 <= i < j < |actions| ==> InTurn(actions[i], actions[j], x)
  }

  lemma {:induction false} InsertInTurn(a: Action, s: seq<Action>, x: string)
    requires Ascending(s, Earlier) && AllInTurn(s, x) && forall i :: 0 <= i < |s| ==> InTurn(s[i], a, x)
    ensures AllInTurn(Insert(a, s, Earlier), x)
  {
    if s == [] {
    } else if Earlier(a, s[0]) {
      forall j | 0 <= j < |s| ensures InTurn(a, s[j], x) {
        assert j > 0 ==> !Earlier(s[j], s[0]);
      }
    } else {
      var tail := s[1..];
      assert Ascending(tail, Earlier) && AllInTurn(tail, x);
      InsertInTurn(a, tail, x);
      var r := Insert(a, tail, Earlier);
      forall j | 0 <= j < |r| ensures InTurn(s[0], r[j], x) {
        InsertElement(a, tail, Earlier, j);
        assert r[j] in tail ==> exists k :: 1 <= k < |s| && s[k] == r[j];
      }
    }
  }

  /** Sorting by time alone keeps the order of the groups. */
  lemma {:induction false} SortInTurn(actions: seq<Action>, x: string)
    requires AllInTurn(actions, x)
    ensures AllInTurn(SortBy(actions, Earlier), x)
  {
    if actions != [] {
      var front, last := actions[..|actions| - 1], actions[|actions| - 1];
      SortInTurn(front, x);
      SortAscending(front, Earlier);
      var s := SortBy(front, Earlier);
      forall i | 0 <= i < |s| ensures InTurn(s[i], last, x) {
        assert s[i] in multiset(s);
        assert s[i] in front;
      }
      InsertInTurn(last, s, x);
    }
  }

  /** What the merged timeline says about a link that only the table touches. */
  ghost predicate Told(merged: seq<Action>, rows: seq<Row>, x: string) {
    && AllInTurn(merged, x)
    && (forall i :: 0 <= i < |merged| && merged[i].Touches(x) ==> Asked(rows, merged[i].at, merged[i].kind, x))
    && forall at, kind :: Asked(rows, at, kind, x) ==>
           exists i :: 0 <= i < |merged| && merged[i].Touches(x) && merged[i].at == at && merged[i].kind == kind
  }

  lemma MergedTells(timeline: seq<Action>, generated: seq<Action>, rows: seq<Row>, x: string)
    requires Generated(generated, rows) && forall i :: 0 <= i < |timeline| ==> !timeline[i].Touches(x)
    ensures Told(SortBy(timeline + generated, Earlier), rows, x)
  {
    hide SortBy, KeyLess;
    var all := timeline + generated;
    var merged := SortBy(all, Earlier);
    assert AllInTurn(all, x);
    SortInTurn(all, x);
    forall i | 0 <= i < |merged| && merged[i].Touches(x) ensures Asked(rows, merged[i].at, merged[i].kind, x) {
      assert merged[i] in multiset(merged);
      assert merged[i] in all;
      var k :| 0 <= k < |all| && all[k] == merged[i];
      assert k >= |timeline| && generated[k - |timeline|] == merged[i];
    }
    forall at, kind | Asked(rows, at, kind, x)
      ensures exists i :: 0 <= i < |merged| && merged[i].Touches(x) && merged[i].at == at && merged[i].kind == kind
    {
      var k :| 0 <= k < |generated| && generated[k].at == at && generated[k].kind == kind;
      assert x in generated[k].ids && generated[k].Touches(x);
      assert all[|timeline| + k] == generated[k];
      assert generated[k] in multiset(merged);
      assert generated[k] in merged;
    }
  }

  /** The actions whose time has come. */
  ghost predicate Cut(actions: seq<Action>, n: nat, t: int) {
    n <= |actions| && forall i :: 0 <= i < |actions| ==> (i < n <==> actions[i].at <= t)
  }

  /** While a window lasts, its start is the last action on the link. */
  lemma NothingSinceStart(merged: seq<Action>, rows: seq<Row>, x: string, k: nat, m: nat, j: nat)
    requires Told(merged, rows, x) && Separate(rows) && (forall i :: 0 <= i < |rows| ==> rows[i].start < rows[i].end)
    requires k < |rows| && rows[k].link == x && m < j < |merged|
    requires merged[m].Touches(x) && merged[m].at == rows[k].start && merged[m].kind == UP
    requires merged[j].Touches(x)
    ensures merged[j].at >= rows[k].end
  {
    hide Less;
    DownFirst();
    LessIrreflexive(UP);
    assert InTurn(merged[m], merged[j], x);
    assert merged[j].at > rows[k].start;
    assert Asked(rows, merged[j].at, merged[j].kind, x);
    var i :| 0 <= i < |rows| && rows[i].link == x &&
             ((merged[j].kind == UP && rows[i].start == merged[j].at)
              || (merged[j].kind == DOWN && rows[i].end == merged[j].at));
    if i != k {
      assert !rows[Later(i, k)].Overlaps(rows[i + k - Later(i, k)]);
    }
  }

  function Later(i: nat, j: nat): nat {
    if i > j then i else j
  }

  /** Replaying the timeline up to any instant leaves a link of the table up exactly if the instant lies in
      one of its windows, whatever else the base timeline does. Back-to-back windows included. */
  lemma MeaningKept(timeline: seq<Action>, generated: seq<Action>, rows: seq<Row>, x: string, t: int, n: nat)
    requires Generated(generated, rows) && Separate(rows)
             && (forall i :: 0 <= i < |rows| ==> rows[i].start < rows[i].end)
    requires forall i :: 0 <= i < |timeline| ==> !timeline[i].Touches(x)
    requires Cut(SortBy(timeline + generated, Earlier), n, t)
    ensures Replayed(SortBy(timeline + generated, Earlier)[..n], x, false) <==> Covered(rows, x, t)
  {
    hide SortBy, Generated, AllInTurn, KeyLess;
    var merged := SortBy(timeline + generated, Earlier);
    MergedTells(timeline, generated, rows, x);
    var m := LastTouch(merged[..n], x);
    if m < 0 {
      ReplayedUntouched(merged[..n], x, false);
    } else {
      ReplayedLast(merged[..n], x, false, m);
    }
    if Covered(rows, x, t) {
      var k :| 0 <= k < |rows| && rows[k].link == x && rows[k].start <= t < rows[k].end;
      assert Asked(rows, rows[k].start, UP, x);
      var s :| 0 <= s < |merged| && merged[s].Touches(x) && merged[s].at == rows[k].start && merged[s].kind == UP;
      assert s < n && merged[..n][s] == merged[s];
      if s < m {
        assert merged[..n][m] == merged[m];
        NothingSinceStart(merged, rows, x, k, s, m);
      }
      assert s == m;
    } else if m >= 0 && merged[m].kind == UP {
      StartIsCovered(merged, rows, x, t, n, m);
    }
  }

  /** If the last action on a link is a start, its window has not ended. */
  lemma StartIsCovered(merged: seq<Action>, rows: seq<Row>, x: string, t: int, n: nat, m: nat)
    requires Told(merged, rows, x) && Cut(merged, n, t) && m < n
             && (forall i :: 0 <= i < |rows| ==> rows[i].start < rows[i].end)
    requires merged[m].Touches(x) && merged[m].kind == UP && forall i :: m < i < n ==> !merged[i].Touches(x)
    ensures Covered(rows, x, t)
  {
    hide Less;
    assert Asked(rows, merged[m].at, merged[m].kind, x);
    var k :| 0 <= k < |rows| && rows[k].link == x && rows[k].start == merged[m].at;
    assert Asked(rows, rows[k].end, DOWN, x);
  }
}
