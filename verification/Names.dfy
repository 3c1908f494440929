/** Identifiers and the orders the program sorts them by. */
module Names {

  /** `less` is a strict linear order. */
  ghost predicate Linear<T(!new)>(less: (T, T) -> bool) {
    && (forall x :: !less(x, x))
    && (forall x, y :: less(x, y) || x == y || less(y, x))
    && (forall x, y, z :: less(x, y) && less(y, z) ==> less(x, z))
  }

  ghost predicate Ordered<T>(s: seq<T>, less: (T, T) -> bool) {
    forall i, j :: 0 <= i < j < |s| ==> less(s[i], s[j])
  }

  /** The comparison of strings in Go and Python: code point by code point, a proper prefix first. */
  predicate Less(a: string, b: string) {
    b != [] && (a == [] || a[0] < b[0] || (a[0] == b[0] && Less(a[1..], b[1..])))
  }

  lemma {:induction false} LessConnected(a: string, b: string)
    ensures Less(a, b) || a == b || Less(b, a)
  {
    if a != [] && b != [] && a[0] == b[0] {
      LessConnected(a[1..], b[1..]);
      assert a == [a[0]] + a[1..] && b == [b[0]] + b[1..];
    }
  }

  lemma {:induction false} LessTransitive(a: string, b: string, c: string)
    requires Less(a, b) && Less(b, c)
    ensures Less(a, c)
  {
    if a != [] && a[0] == b[0] && b[0] == c[0] {
      LessTransitive(a[1..], b[1..], c[1..]);
    }
  }

  lemma {:induction false} LessIrreflexive(a: string)
    ensures !Less(a, a)
  {
    if a != [] {
      LessIrreflexive(a[1..]);
    }
  }

  /** Names are linearly ordered. */
  lemma LessLinear()
    ensures Linear(Less)
  {
    forall a: string ensures !Less(a, a) {
      LessIrreflexive(a);
    }
    forall a: string, b: string ensures Less(a, b) || a == b || Less(b, a) {
      LessConnected(a, b);
    }
    forall a: string, b: string, c: string | Less(a, b) && Less(b, c) ensures Less(a, c) {
      LessTransitive(a, b, c);
    }
  }

  lemma LessAsymmetric(a: string, b: string)
    ensures Less(a, b) ==> !Less(b, a)
  {
    if Less(a, b) && Less(b, a) {
      LessTransitive(a, b, a);
      LessIrreflexive(a);
    }
  }

  /** The complement of the name order is transitive. */
  lemma LessWeak(a: string, b: string, c: string)
    ensures !Less(a, b) && !Less(b, c) ==> !Less(a, c)
  {
    if !Less(a, b) && !Less(b, c) && Less(a, c) {
      LessConnected(a, b);
      if a != b {
        LessTransitive(b, a, c);
      }
    }
  }

  /** Sorting by an integer key first and by name on ties. */
  function ByKey(key: string -> int): (string, string) -> bool {
    (a, b) => key(a) < key(b) || (key(a) == key(b) && Less(a, b))
  }

  lemma ByKeyLinear(key: string -> int)
    ensures Linear(ByKey(key))
  {
    LessLinear();
  }

  ghost predicate IsLeast<T>(m: T, s: set<T>, less: (T, T) -> bool) {
    m in s && forall x | x in s :: x == m || less(m, x)
  }

  lemma {:induction false} LeastExists<T(!new)>(s: set<T>, less: (T, T) -> bool) returns (m: T)
    requires Linear(less) && s != {}
    ensures IsLeast(m, s, less)
  {
    var e :| e in s;
    if s == {e} {
      return e;
    }
    var m' := LeastExists(s - {e}, less);
    m := if less(e, m') then e else m';
    assert m == m' ==> e == m || less(m, e);
    forall x | x in s && x != e ensures x == m || less(m, x) {
      assert x in s - {e};
    }
  }

  function Least<T(!new, ==)>(s: set<T>, less: (T, T) -> bool): (m: T)
    requires Linear(less) && s != {}
    ensures m in s && forall x | x in s :: x == m || less(m, x)
  {
    assert exists m :: IsLeast(m, s, less) by {
      var w := LeastExists(s, less);
    }
    var m :| m in s && forall x | x in s :: x == m || less(m, x);
    m
  }

  /** The elements of a set in ascending order. */
  function Sorted<T(!new, ==)>(s: set<T>, less: (T, T) -> bool): (r: seq<T>)
    requires Linear(less)
    ensures (forall x :: x in r <==> x in s) && |r| == |s| && Ordered(r, less)
    decreases |s|
  {
    if s == {} then [] else
      var m := Least(s, less);
      var rest := Sorted(s - {m}, less);
      assert forall i :: 0 <= i < |rest| ==> rest[i] in s - {m};
      [m] + rest
  }

  lemma OrderedDistinct<T(!new)>(s: seq<T>, less: (T, T) -> bool)
    requires Linear(less) && Ordered(s, less)
    ensures forall i, j :: 0 <= i < j < |s| ==> s[i] != s[j]
  {
  }

  /** An ascending sequence is determined by its elements. */
  lemma {:induction false} OrderedUnique<T(!new)>(s: seq<T>, t: seq<T>, less: (T, T) -> bool)
    requires Linear(less) && Ordered(s, less) && Ordered(t, less)
    requires forall x :: x in s <==> x in t
    ensures s == t
  {
    assert |t| > 0 ==> t[0] in t;
    if s != [] {
      assert s[0] in t;
      assert t[0] in s;
      assert s[0] == t[0];
      forall x ensures x in s[1..] <==> x in t[1..] {
        if x in s[1..] {
          assert x in s && less(s[0], x) && x in t;
        }
        if x in t[1..] {
          assert x in t && less(t[0], x) && x in s;
        }
      }
      OrderedUnique(s[1..], t[1..], less);
      assert s == [s[0]] + s[1..] && t == [t[0]] + t[1..];
    }
  }

  // ---- sorting sequences ---------------------------------------------------------------------

  /** `less` is a strict weak order: elements that compare neither way are ties. */
  ghost predicate WeakOrder<T(!new)>(less: (T, T) -> bool) {
    && (forall x, y :: less(x, y) ==> !less(y, x))
    && (forall x, y, z :: !less(x, y) && !less(y, z) ==> !less(x, z))
  }

  ghost predicate Ascending<T>(s: seq<T>, less: (T, T) -> bool) {
    forall i, j :: 0 <= i < j < |s| ==> !less(s[j], s[i])
  }

  function Insert<T>(x: T, s: seq<T>, less: (T, T) -> bool): (r: seq<T>)
    ensures multiset(r) == multiset(s) + multiset{x} && |r| == |s| + 1
  {
    if s == [] || less(x, s[0]) then
      assert multiset([x] + s) == multiset{x} + multiset(s);
      [x] + s
    else
      assert s == [s[0]] + s[1..];
      [s[0]] + Insert(x, s[1..], less)
  }

  /** A stable sort. */
  function SortBy<T>(s: seq<T>, less: (T, T) -> bool): (r: seq<T>)
    ensures multiset(r) == multiset(s) && |r| == |s|
  {
    if s == [] then [] else
      assert s == s[..|s| - 1] + [s[|s| - 1]];
      Insert(s[|s| - 1], SortBy(s[..|s| - 1], less), less)
  }

  lemma {:induction false} InsertAscending<T(!new)>(x: T, s: seq<T>, less: (T, T) -> bool)
    requires WeakOrder(less) && Ascending(s, less)
    ensures Ascending(Insert(x, s, less), less)
  {
    if s == [] {
    } else if less(x, s[0]) {
      forall j | 0 <= j < |s| ensures !less(s[j], x) {
        assert j > 0 ==> !less(s[j], s[0]);
      }
    } else {
      InsertAscending(x, s[1..], less);
      var r := Insert(x, s[1..], less);
      forall j | 0 <= j < |r| ensures !less(r[j], s[0]) {
        InsertElement(x, s[1..], less, j);
      }
    }
  }

  lemma InsertElement<T>(x: T, s: seq<T>, less: (T, T) -> bool, j: nat)
    requires j <= |s|
    ensures Insert(x, s, less)[j] == x || Insert(x, s, less)[j] in s
  {
    var r := Insert(x, s, less);
    assert r[j] in multiset(r);
  }

  lemma {:induction false} SortAscending<T(!new)>(s: seq<T>, less: (T, T) -> bool)
    requires WeakOrder(less)
    ensures Ascending(SortBy(s, less), less)
  {
    if s != [] {
      SortAscending(s[..|s| - 1], less);
      InsertAscending(s[|s| - 1], SortBy(s[..|s| - 1], less), less);
    }
  }

  lemma {:induction false} InsertLast<T>(x: T, s: seq<T>, less: (T, T) -> bool)
    requires forall i :: 0 <= i < |s| ==> !less(x, s[i])
    ensures Insert(x, s, less) == s + [x]
  {
    if s != [] {
      InsertLast(x, s[1..], less);
      assert s + [x] == [s[0]] + (s[1..] + [x]);
    }
  }

  /** Sorting a sorted sequence changes nothing. */
  lemma {:induction false} SortIdempotent<T>(s: seq<T>, less: (T, T) -> bool)
    requires Ascending(s, less)
    ensures SortBy(s, less) == s
  {
    if s != [] {
      SortIdempotent(s[..|s| - 1], less);
      InsertLast(s[|s| - 1], s[..|s| - 1], less);
    }
  }

  /** No two elements have the same key. */
  ghost predicate KeysDistinct<T, K>(s: seq<T>, key: T -> K) {
    forall i, j :: 0 <= i < j < |s| ==> key(s[i]) != key(s[j])
  }

  lemma {:induction false} InsertKeysDistinct<T, K>(x: T, s: seq<T>, less: (T, T) -> bool, key: T -> K)
    requires KeysDistinct(s, key) && forall i :: 0 <= i < |s| ==> key(s[i]) != key(x)
    ensures KeysDistinct(Insert(x, s, less), key)
  {
    if s != [] && !less(x, s[0]) {
      InsertKeysDistinct(x, s[1..], less, key);
      var r := Insert(x, s[1..], less);
      forall j | 0 <= j < |r| ensures key(r[j]) != key(s[0]) {
        InsertElement(x, s[1..], less, j);
      }
    }
  }

  lemma {:induction false} SortKeysDistinct<T, K>(s: seq<T>, less: (T, T) -> bool, key: T -> K)
    requires KeysDistinct(s, key)
    ensures KeysDistinct(SortBy(s, less), key)
  {
    if s != [] {
      var front, last := s[..|s| - 1], s[|s| - 1];
      SortKeysDistinct(front, less, key);
      var r := SortBy(front, less);
      forall i | 0 <= i < |r| ensures key(r[i]) != key(last) {
        assert r[i] in multiset(r);
        assert r[i] in front;
      }
      InsertKeysDistinct(last, r, less, key);
    }
  }
}
