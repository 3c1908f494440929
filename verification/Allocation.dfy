/** Allocations of satellite terminals to ground sites, as sets of contacts, and the counting
    argument that bounds all of them at once. */
module Allocation {

  datatype Contact = Contact(sat: string, gw: string)

  ghost function Row(a: set<Contact>, g: string): set<Contact> {
    set c | c in a && c.gw == g
  }

  ghost function Column(a: set<Contact>, s: string): set<Contact> {
    set c | c in a && c.sat == s
  }

  ghost function Rows(a: set<Contact>, gs: set<string>): set<Contact> {
    set c | c in a && c.gw in gs
  }

  ghost function Columns(a: set<Contact>, ss: set<string>): set<Contact> {
    set c | c in a && c.sat in ss
  }

  /** Geometrically eligible contacts only, and no satellite beyond its terminals. */
  ghost predicate Feasible(a: set<Contact>, eligible: set<Contact>, limit: nat) {
    a <= eligible && forall s :: |Column(a, s)| <= limit
  }

  /** The Hall-style obstruction: the satellites `full` are all at their limit, every contact they
      hold outside `kept` belongs to a site of `gs`, and the sites of `gs` already hold whatever
      they could reach outside `full`. */
  ghost predicate Certificate(a: set<Contact>, kept: set<Contact>, eligible: set<Contact>, limit: nat,
                              gs: set<string>, full: set<string>)
  {
    && (forall s :: s in full ==> |Column(a, s)| >= limit)
    && (forall c :: c in a && c !in kept && c.sat in full ==> c.gw in gs)
    && (forall c :: c in eligible && c.gw in gs ==> c.sat in full || c in a)
  }

  lemma SubsetSize<T>(x: set<T>, y: set<T>)
    requires x <= y
    ensures |x| <= |y|
    ensures |x| == |y| ==> x == y
  {
    var d := y - x;
    assert y == x + d;
  }

  lemma DisjointSize<T>(x: set<T>, y: set<T>, z: set<T>)
    requires x !! y && x + y <= z
    ensures |x| + |y| <= |z|
  {
    assert |x + y| == |x| + |y|;
    SubsetSize(x + y, z);
  }

  lemma RowsSplit(a: set<Contact>, gs: set<string>, g: string)
    requires g in gs
    ensures |Rows(a, gs)| == |Row(a, g)| + |Rows(a, gs - {g})|
  {
    assert Rows(a, gs) == Row(a, g) + Rows(a, gs - {g});
  }

  lemma ColumnsSplit(a: set<Contact>, ss: set<string>, s: string)
    requires s in ss
    ensures |Columns(a, ss)| == |Column(a, s)| + |Columns(a, ss - {s})|
  {
    assert Columns(a, ss) == Column(a, s) + Columns(a, ss - {s});
  }

  lemma NoRows(a: set<Contact>)
    ensures Rows(a, {}) == {} && Columns(a, {}) == {}
  {
  }

  lemma {:induction false} RowsMonotone(a: set<Contact>, b: set<Contact>, gs: set<string>)
    requires forall g :: g in gs ==> |Row(a, g)| <= |Row(b, g)|
    ensures |Rows(a, gs)| <= |Rows(b, gs)|
    ensures |Rows(a, gs)| == |Rows(b, gs)| ==> forall g :: g in gs ==> |Row(a, g)| == |Row(b, g)|
    decreases gs
  {
    hide Row, Rows;
    if gs == {} {
      NoRows(a);
      NoRows(b);
    } else {
      var g :| g in gs;
      RowsMonotone(a, b, gs - {g});
      RowsSplit(a, gs, g);
      RowsSplit(b, gs, g);
    }
  }

  lemma {:induction false} ColumnsMonotone(a: set<Contact>, b: set<Contact>, ss: set<string>)
    requires forall s :: s in ss ==> |Column(a, s)| <= |Column(b, s)|
    ensures |Columns(a, ss)| <= |Columns(b, ss)|
    ensures |Columns(a, ss)| == |Columns(b, ss)| ==> forall s :: s in ss ==> |Column(a, s)| == |Column(b, s)|
    decreases ss
  {
    hide Column, Columns;
    if ss == {} {
      NoRows(a);
      NoRows(b);
    } else {
      var s :| s in ss;
      ColumnsMonotone(a, b, ss - {s});
      ColumnsSplit(a, ss, s);
      ColumnsSplit(b, ss, s);
    }
  }

  lemma ColumnWithout(a: set<Contact>, kept: set<Contact>, s: string)
    requires kept <= a
    ensures |Column(a - kept, s)| == |Column(a, s)| - |Column(kept, s)|
  {
    assert Column(a, s) == Column(a - kept, s) + Column(kept, s);
  }

  lemma RowWithout(a: set<Contact>, kept: set<Contact>, g: string)
    requires kept <= a
    ensures |Row(a - kept, g)| == |Row(a, g)| - |Row(kept, g)|
  {
    assert Row(a, g) == Row(a - kept, g) + Row(kept, g);
  }

  /** How the contacts of `gs` in any feasible allocation split over the full satellites. */
  lemma HallSplit(a: set<Contact>, b: set<Contact>, kept: set<Contact>, eligible: set<Contact>, limit: nat,
                  gs: set<string>, full: set<string>)
    requires Certificate(a, kept, eligible, limit, gs, full)
    requires Feasible(b, eligible, limit) && kept <= a && kept <= b
    ensures var inside, outside := Columns(Rows(b - kept, gs), full), Rows(b - kept, gs) - Columns(b, full);
            && |Rows(b - kept, gs)| == |inside| + |outside|
            && |inside| <= |Columns(b - kept, full)| <= |Columns(a - kept, full)|
            && outside <= Rows(a - kept, gs) - Columns(a, full)
            && |Columns(a - kept, full)| + |Rows(a - kept, gs) - Columns(a, full)| == |Rows(a - kept, gs)|
  {
    var inside, outside := Columns(Rows(b - kept, gs), full), Rows(b - kept, gs) - Columns(b, full);
    assert Rows(b - kept, gs) == inside + outside;
    SubsetSize(inside, Columns(b - kept, full));
    forall s | s in full ensures |Column(b - kept, s)| <= |Column(a - kept, s)| {
      ColumnWithout(a, kept, s);
      ColumnWithout(b, kept, s);
    }
    ColumnsMonotone(b - kept, a - kept, full);
    assert Rows(a - kept, gs) == Columns(a - kept, full) + (Rows(a - kept, gs) - Columns(a, full));
  }

  /** A certificate bounds every feasible allocation that keeps the protected contacts. */
  lemma HallBound(a: set<Contact>, b: set<Contact>, kept: set<Contact>, eligible: set<Contact>, limit: nat,
                  gs: set<string>, full: set<string>)
    requires Certificate(a, kept, eligible, limit, gs, full)
    requires Feasible(b, eligible, limit) && kept <= a && kept <= b
    ensures |Rows(b - kept, gs)| <= |Rows(a - kept, gs)|
  {
    HallSplit(a, b, kept, eligible, limit, gs, full);
    SubsetSize(Rows(b - kept, gs) - Columns(b, full), Rows(a - kept, gs) - Columns(a, full));
  }

  /** With a certificate around `gw`, no feasible allocation keeping the protected contacts gives
      `gw` one more contact while every other site keeps its count. */
  lemma NoAugmentation(a: set<Contact>, b: set<Contact>, kept: set<Contact>, eligible: set<Contact>, limit: nat,
                       gs: set<string>, full: set<string>, gw: string)
    requires Certificate(a, kept, eligible, limit, gs, full) && gw in gs
    requires Feasible(b, eligible, limit) && kept <= a && kept <= b
    requires forall g :: g != gw ==> |Row(a, g)| <= |Row(b, g)|
    ensures |Row(b, gw)| <= |Row(a, gw)|
  {
    if |Row(a, gw)| < |Row(b, gw)| {
      forall g ensures |Row(a - kept, g)| <= |Row(b - kept, g)| {
        RowWithout(a, kept, g);
        RowWithout(b, kept, g);
      }
      RowWithout(a, kept, gw);
      RowWithout(b, kept, gw);
      RowsMonotone(a - kept, b - kept, gs);
      HallBound(a, b, kept, eligible, limit, gs, full);
    }
  }

  /** A certificate outlives every feasible change that takes nothing from its sites, and the
      counts of those sites are then frozen. */
  lemma CertificatePersists(a: set<Contact>, b: set<Contact>, eligible: set<Contact>, limit: nat,
                            gs: set<string>, full: set<string>)
    requires Certificate(a, {}, eligible, limit, gs, full) && Feasible(a, eligible, limit)
    requires Feasible(b, eligible, limit)
    requires forall g :: g in gs ==> |Row(a, g)| <= |Row(b, g)|
    ensures Certificate(b, {}, eligible, limit, gs, full)
    ensures forall g :: g in gs ==> |Row(a, g)| == |Row(b, g)|
  {
    RowsMonotone(a, b, gs);
    assert a - {} == a && b - {} == b;
    HallSplit(a, b, {}, eligible, limit, gs, full);
    var inside, outside := Columns(Rows(b, gs), full), Rows(b, gs) - Columns(b, full);
    SubsetSize(outside, Rows(a, gs) - Columns(a, full));
    SubsetSize(inside, Columns(b, full));
    assert outside == Rows(a, gs) - Columns(a, full);
    assert inside == Columns(b, full);
    forall s | s in full ensures |Column(b, s)| <= |Column(a, s)| {
    }
    ColumnsMonotone(b, a, full);
    forall c | c in b && c.sat in full ensures c.gw in gs {
      assert c in Columns(b, full);
    }
    forall c | c in eligible && c.gw in gs && c.sat !in full ensures c in b {
      assert c in Rows(a, gs) - Columns(a, full);
    }
  }

  lemma CertificatesUnite(a: set<Contact>, eligible: set<Contact>, limit: nat,
                          gs: set<string>, full: set<string>, gs': set<string>, full': set<string>)
    requires Certificate(a, {}, eligible, limit, gs, full) && Certificate(a, {}, eligible, limit, gs', full')
    ensures Certificate(a, {}, eligible, limit, gs + gs', full + full')
  {
  }

  /** `g` cannot be served better without taking from a site that has at most one contact more. */
  ghost predicate Saturated(a: set<Contact>, eligible: set<Contact>, limit: nat, g: string) {
    exists gs, full :: SaturatedBy(a, eligible, limit, g, gs, full)
  }

  ghost predicate SaturatedBy(a: set<Contact>, eligible: set<Contact>, limit: nat, g: string,
                              gs: set<string>, full: set<string>)
  {
    && Certificate(a, {}, eligible, limit, gs, full)
    && g in gs
    && forall h :: h in gs ==> |Row(a, h)| <= |Row(a, g)| + 1
  }

  lemma SaturatedPersists(a: set<Contact>, b: set<Contact>, eligible: set<Contact>, limit: nat, g: string)
    requires Saturated(a, eligible, limit, g) && Feasible(a, eligible, limit) && Feasible(b, eligible, limit)
    requires forall h :: |Row(a, h)| <= |Row(b, h)|
    ensures Saturated(b, eligible, limit, g) && |Row(b, g)| == |Row(a, g)|
  {
    var gs, full :| SaturatedBy(a, eligible, limit, g, gs, full);
    CertificatePersists(a, b, eligible, limit, gs, full);
    assert SaturatedBy(b, eligible, limit, g, gs, full);
  }

  /** Max-min fairness: serving `g` better takes a contact from some site that ends up no better
      served than `g` was. */
  lemma SaturatedIsFair(a: set<Contact>, b: set<Contact>, eligible: set<Contact>, limit: nat, g: string)
    requires Saturated(a, eligible, limit, g) && Feasible(b, eligible, limit)
    requires |Row(b, g)| > |Row(a, g)|
    ensures exists h :: |Row(b, h)| < |Row(a, h)| && |Row(a, h)| <= |Row(a, g)| + 1
  {
    var gs, full :| SaturatedBy(a, eligible, limit, g, gs, full);
    if forall h :: h in gs ==> |Row(a, h)| <= |Row(b, h)| {
      RowsMonotone(a, b, gs);
      assert a - {} == a && b - {} == b;
      HallBound(a, b, {}, eligible, limit, gs, full);
    }
  }

  lemma {:induction false} JointCertificate(a: set<Contact>, eligible: set<Contact>, limit: nat, hs: set<string>)
    returns (gs: set<string>, full: set<string>)
    requires forall h :: h in hs ==> Saturated(a, eligible, limit, h)
    ensures Certificate(a, {}, eligible, limit, gs, full) && hs <= gs
    decreases hs
  {
    if hs == {} {
      gs, full := {}, {};
    } else {
      var h :| h in hs;
      gs, full := JointCertificate(a, eligible, limit, hs - {h});
      var gs', full' :| SaturatedBy(a, eligible, limit, h, gs', full');
      CertificatesUnite(a, eligible, limit, gs, full, gs', full');
      gs, full := gs + gs', full + full';
    }
  }

  /** When every site is either full or saturated, no feasible allocation within the site budget
      has more contacts. */
  lemma SaturatedIsMaximum(a: set<Contact>, b: set<Contact>, eligible: set<Contact>, limit: nat,
                           sites: set<string>, budget: nat)
    requires Feasible(b, eligible, limit)
    requires forall c :: c in eligible ==> c.gw in sites
    requires forall g :: |Row(b, g)| <= budget
    requires forall g :: g in sites ==> |Row(a, g)| == budget || Saturated(a, eligible, limit, g)
    ensures |b| <= |a|
  {
    var hs := set g | g in sites && |Row(a, g)| != budget;
    var gs, full := JointCertificate(a, eligible, limit, hs);
    assert a - {} == a && b - {} == b;
    HallBound(a, b, {}, eligible, limit, gs, full);
    RowsMonotone(b, a, sites - gs);
    assert b == Rows(b, gs) + Rows(b, sites - gs);
    DisjointSize(Rows(a, gs), Rows(a, sites - gs), a);
  }
}
