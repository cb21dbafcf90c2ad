/** Sorted listings of finite sets, unique for a given strict order. */
module Sorting {

  ghost predicate StrictOrder<T(!new)>(less: (T, T) -> bool) {
    && (forall x :: !less(x, x))
    && (forall x, y, z :: less(x, y) && less(y, z) ==> less(x, z))
    && (forall x, y :: x == y || less(x, y) || less(y, x))
  }

  ghost predicate Ascending<T>(less: (T, T) -> bool, s: seq<T>) {
    forall i, j | 0 <= i < j < |s| :: less(s[i], s[j])
  }

  function Insert<T>(less: (T, T) -> bool, s: seq<T>, x: T): seq<T> {
    if s == [] || less(x, s[0]) then [x] + s else [s[0]] + Insert(less, s[1..], x)
  }

  lemma {:induction false} InsertSorts<T(!new)>(less: (T, T) -> bool, s: seq<T>, x: T)
    requires StrictOrder(less) && Ascending(less, s) && x !in s
    ensures Ascending(less, Insert(less, s, x))
    ensures forall y :: y in Insert(less, s, x) <==> y in s || y == x
  {
    if s != [] && !less(x, s[0]) {
      var rest := s[1..];
      InsertSorts(less, rest, x);
      var r := Insert(less, rest, x);
      assert s == [s[0]] + rest;
      assert forall y | y in r :: less(s[0], y);
      assert forall i | 0 <= i < |r| :: r[i] in r;
    }
  }

  /** The elements of a set in ascending order. */
  ghost function Listing<T(!new)>(less: (T, T) -> bool, s: set<T>): (r: seq<T>)
    requires StrictOrder(less)
    ensures Ascending(less, r)
    ensures forall x :: x in r <==> x in s
  {
    if s == {} then []
    else
      var x :| x in s;
      var rest := Listing(less, s - {x});
      InsertSorts(less, rest, x);
      Insert(less, rest, x)
  }

  lemma {:induction false} ListingUnique<T(!new)>(less: (T, T) -> bool, a: seq<T>, b: seq<T>)
    requires StrictOrder(less) && Ascending(less, a) && Ascending(less, b)
    requires forall x :: x in a <==> x in b
    ensures a == b
  {
    if a != [] { assert a[0] in a; }
    if b != [] { assert b[0] in b; }
    if a != [] {
      assert forall i | 0 < i < |a| :: less(a[0], a[i]);
      assert forall i | 0 < i < |b| :: less(b[0], b[i]);
      assert a[0] == b[0];
      var x := a[0];
      assert a == [x] + a[1..] && b == [x] + b[1..];
      assert forall y :: y in a[1..] <==> y in a && y != x;
      assert forall y :: y in b[1..] <==> y in b && y != x;
      ListingUnique(less, a[1..], b[1..]);
    }
  }

  /** Gathering a map's keys in whatever order and sorting them yields the listing. */
  method SortElements<T(==, !new)>(less: (T, T) -> bool, s: set<T>) returns (r: seq<T>)
    requires StrictOrder(less)
    ensures r == Listing(less, s)
  {
    r := [];
    var left := s;
    while left != {}
      invariant left <= s && Ascending(less, r)
      invariant forall x :: x in r <==> x in s && x !in left
    {
      var x :| x in left;
      InsertSorts(less, r, x);
      r := Insert(less, r, x);
      left := left - {x};
    }
    ListingUnique(less, r, Listing(less, s));
  }

  // ------------------------------------------------- integers and strings

  predicate IntLess(a: int, b: int) { a < b }

  /** Byte order of strings. */
  predicate StringLess(a: string, b: string)
    decreases a
  {
    b != "" && (a == "" || a[0] < b[0] || (a[0] == b[0] && StringLess(a[1..], b[1..])))
  }

  lemma {:induction false} StringLessIrreflexive(a: string)
    ensures !StringLess(a, a)
  {
    if a != "" { StringLessIrreflexive(a[1..]); }
  }

  lemma {:induction false} StringLessTransitive(a: string, b: string, c: string)
    ensures StringLess(a, b) && StringLess(b, c) ==> StringLess(a, c)
  {
    if a != "" && b != "" && c != "" { StringLessTransitive(a[1..], b[1..], c[1..]); }
  }

  lemma {:induction false} StringLessTotal(a: string, b: string)
    ensures a == b || StringLess(a, b) || StringLess(b, a)
  {
    if a != "" && b != "" {
      StringLessTotal(a[1..], b[1..]);
      assert a == [a[0]] + a[1..] && b == [b[0]] + b[1..];
    }
  }

  lemma StringOrder()
    ensures StrictOrder(StringLess)
  {
    forall a { StringLessIrreflexive(a); }
    forall a, b, c ensures StringLess(a, b) && StringLess(b, c) ==> StringLess(a, c) { StringLessTransitive(a, b, c); }
    forall a, b ensures a == b || StringLess(a, b) || StringLess(b, a) { StringLessTotal(a, b); }
  }

  lemma IntOrder()
    ensures StrictOrder(IntLess)
  {
  }
}
