/**
 Query results under a total ORDER BY: a strictly ordered listing of a set of rows is unique.
 */
module Listings {
  ghost predicate StrictOrder<T(!new)>(less: (T, T) -> bool) {
    (forall x :: !less(x, x)) && (forall x, y, z :: less(x, y) && less(y, z) ==> less(x, z))
  }

  ghost predicate Ordered<T>(rows: seq<T>, less: (T, T) -> bool) {
    forall i, j :: 0 <= i < j < |rows| ==> less(rows[i], rows[j])
  }

  /** The rows in order, each exactly once. */
  ghost predicate IsListing<T(!new)>(rows: seq<T>, all: iset<T>, less: (T, T) -> bool) {
    Ordered(rows, less) && forall x :: x in all <==> x in rows
  }

  lemma HasMember<T>(a: seq<T>)
    ensures a == [] || exists x :: x in a
  {
    if a != [] { assert a[0] in a; }
  }

  lemma FirstIsLeast<T>(a: seq<T>, i: nat, less: (T, T) -> bool)
    requires Ordered(a, less) && i < |a|
    ensures a[0] == a[i] || less(a[0], a[i])
  {
  }

  lemma {:induction false} ListingUnique<T(!new)>(a: seq<T>, b: seq<T>, less: (T, T) -> bool)
    requires StrictOrder(less) && Ordered(a, less) && Ordered(b, less)
    requires forall x :: x in a <==> x in b
    ensures a == b
  {
    if a == [] {
      HasMember(b);
    } else {
      assert a[0] in a && b[0] in b;
      FirstsAgree(a, b, less);
      TailMembers(a, less);
      TailMembers(b, less);
      ListingUnique(a[1..], b[1..], less);
      assert a == [a[0]] + a[1..] && b == [b[0]] + b[1..];
    }
  }

  lemma FirstsAgree<T(!new)>(a: seq<T>, b: seq<T>, less: (T, T) -> bool)
    requires StrictOrder(less) && Ordered(a, less) && Ordered(b, less) && a != [] && b != []
    requires a[0] in b && b[0] in a
    ensures a[0] == b[0]
  {
    var i :| 0 <= i < |b| && b[i] == a[0];
    var j :| 0 <= j < |a| && a[j] == b[0];
    FirstIsLeast(b, i, less);
    FirstIsLeast(a, j, less);
  }

  lemma TailMembers<T(!new)>(a: seq<T>, less: (T, T) -> bool)
    requires StrictOrder(less) && Ordered(a, less) && a != []
    ensures forall x :: x in a[1..] <==> x in a && x != a[0]
    ensures Ordered(a[1..], less)
  {
    forall x | x in a[1..] ensures less(a[0], x) {
      var i :| 0 <= i < |a[1..]| && a[1..][i] == x;
      assert less(a[0], a[i + 1]);
    }
  }

  ghost predicate TotalOn<T(!new)>(rows: set<T>, less: (T, T) -> bool) {
    forall x, y :: x in rows && y in rows && x != y ==> less(x, y) || less(y, x)
  }

  lemma {:induction false} LeastExists<T(!new)>(rows: set<T>, less: (T, T) -> bool) returns (least: T)
    requires StrictOrder(less) && TotalOn(rows, less) && rows != {}
    ensures least in rows && forall x :: x in rows && x != least ==> less(least, x)
    decreases |rows|
  {
    var x :| x in rows;
    var rest := rows - {x};
    if rest == {} {
      assert rows == {x};
      least := x;
    } else {
      var y := LeastExists(rest, less);
      least := if less(x, y) then x else y;
      forall z | z in rows && z != least ensures less(least, z) {
        if z != x { assert z in rest && (z == y || less(y, z)); }
      }
    }
  }

  /** Rows of which any two are ordered can be listed. */
  lemma {:induction false} ListingExists<T(!new)>(rows: set<T>, less: (T, T) -> bool) returns (listing: seq<T>)
    requires StrictOrder(less) && TotalOn(rows, less)
    ensures Ordered(listing, less) && forall x :: x in listing <==> x in rows
    decreases |rows|
  {
    if rows == {} {
      listing := [];
    } else {
      var least := LeastExists(rows, less);
      var rest := ListingExists(rows - {least}, less);
      listing := [least] + rest;
      forall i | 0 <= i < |rest| ensures less(least, rest[i]) { assert rest[i] in rest; }
    }
  }
}
