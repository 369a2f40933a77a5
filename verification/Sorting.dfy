// Sorting by a strict total order, as the standard library's sort does it on
// keys that are all different.
module Sorting {
  ghost predicate StrictOrder<T(!new)>(less: (T, T) -> bool) {
    && (forall x :: !less(x, x))
    && (forall x, y :: x != y ==> less(x, y) || less(y, x))
    && (forall x, y, z :: less(x, y) && less(y, z) ==> less(x, z))
  }

  predicate Ascending<T>(s: seq<T>, less: (T, T) -> bool) {
    forall i, j :: 0 <= i < j < |s| ==> less(s[i], s[j])
  }

  predicate NoDuplicates<T(==)>(s: seq<T>) {
    forall i, j :: 0 <= i < j < |s| ==> s[i] != s[j]
  }

  function Insert<T>(x: T, s: seq<T>, less: (T, T) -> bool): seq<T> {
    if s == [] || less(x, s[0]) then [x] + s else [s[0]] + Insert(x, s[1..], less)
  }

  function Sort<T>(s: seq<T>, less: (T, T) -> bool): seq<T> {
    if s == [] then [] else Insert(s[0], Sort(s[1..], less), less)
  }

  lemma {:induction false} InsertMembers<T(!new)>(x: T, s: seq<T>, less: (T, T) -> bool)
    ensures multiset(Insert(x, s, less)) == multiset{x} + multiset(s)
    ensures forall y :: y in Insert(x, s, less) <==> y == x || y in s
  {
    if s == [] || less(x, s[0]) {
    } else {
      InsertMembers(x, s[1..], less);
      assert s == [s[0]] + s[1..];
    }
  }

  lemma {:induction false} InsertAscending<T(!new)>(x: T, s: seq<T>, less: (T, T) -> bool)
    requires StrictOrder(less) && Ascending(s, less) && x !in s
    ensures Ascending(Insert(x, s, less), less)
  {
    if s == [] || less(x, s[0]) {
    } else {
      InsertAscending(x, s[1..], less);
      InsertMembers(x, s[1..], less);
      var rest := Insert(x, s[1..], less);
      forall y | y in rest
        ensures less(s[0], y)
      {
        if y != x {
          var k :| 0 <= k < |s[1..]| && s[1..][k] == y;
          assert s[k + 1] == y;
        }
      }
    }
  }

  lemma {:induction false} SortSorts<T(!new)>(s: seq<T>, less: (T, T) -> bool)
    requires StrictOrder(less) && NoDuplicates(s)
    ensures Ascending(Sort(s, less), less)
    ensures multiset(Sort(s, less)) == multiset(s)
    ensures forall y :: y in Sort(s, less) <==> y in s
  {
    if s != [] {
      SortSorts(s[1..], less);
      assert s[0] !in s[1..];
      InsertAscending(s[0], Sort(s[1..], less), less);
      InsertMembers(s[0], Sort(s[1..], less), less);
      assert s == [s[0]] + s[1..];
    }
  }

  // There is only one ascending sequence with given members.
  lemma {:induction false} AscendingUnique<T(!new)>(a: seq<T>, b: seq<T>, less: (T, T) -> bool)
    requires StrictOrder(less) && Ascending(a, less) && Ascending(b, less)
    requires forall y :: y in a <==> y in b
    ensures a == b
    decreases |a|
  {
    assert b != [] ==> b[0] in b;
    if a != [] {
      assert a[0] in b && (b != [] ==> b[0] in a);
      FirstIsLeast(a, b, less);
      forall y
        ensures y in a[1..] <==> y in b[1..]
      {
        TailMembers(a, y, less);
        TailMembers(b, y, less);
      }
      AscendingUnique(a[1..], b[1..], less);
      assert a == [a[0]] + a[1..] && b == [b[0]] + b[1..];
    }
  }

  lemma FirstIsLeast<T(!new)>(a: seq<T>, b: seq<T>, less: (T, T) -> bool)
    requires StrictOrder(less) && Ascending(a, less) && Ascending(b, less)
    requires a != [] && b != [] && a[0] in b && b[0] in a
    ensures a[0] == b[0]
  {
    var i :| 0 <= i < |b| && b[i] == a[0];
    var j :| 0 <= j < |a| && a[j] == b[0];
  }

  lemma TailMembers<T(!new)>(a: seq<T>, y: T, less: (T, T) -> bool)
    requires StrictOrder(less) && Ascending(a, less) && a != []
    ensures y in a[1..] <==> y in a && y != a[0]
  {
    assert a == [a[0]] + a[1..];
  }

  lemma WithoutMembers<T>(s: seq<T>, i: nat)
    requires NoDuplicates(s) && i < |s|
    ensures NoDuplicates(s[..i] + s[i + 1..])
    ensures forall y :: y in s[..i] + s[i + 1..] <==> y in s && y != s[i]
  {
    var without := s[..i] + s[i + 1..];
    forall y | y in s && y != s[i]
      ensures y in without
    {
      var j :| 0 <= j < |s| && s[j] == y;
      assert without[if j < i then j else j - 1] == y;
    }
  }
}
