/** Python's sorted() on a set of whole numbers. */
module Sorting {
  ghost predicate Increasing(s: seq<int>) {
    forall i, j :: 0 <= i < j < |s| ==> s[i] < s[j]
  }

  /** `sorted` holds exactly the members of `s`, in order. */
  ghost predicate IsSortedSet(sorted: seq<int>, s: set<int>) {
    Increasing(sorted) && (forall x :: x in sorted <==> x in s)
  }

  lemma InsertedInOrder(s: seq<int>, x: int, k: nat)
    requires Increasing(s) && k <= |s|
    requires (forall i :: 0 <= i < k ==> s[i] < x) && (k < |s| ==> x < s[k])
    ensures Increasing(s[..k] + [x] + s[k..])
    ensures forall y :: y in s[..k] + [x] + s[k..] <==> y == x || y in s
  {
  }

  method Insert(sorted: seq<int>, x: int) returns (r: seq<int>)
    requires Increasing(sorted) && x !in sorted
    ensures Increasing(r) && forall y :: y in r <==> y == x || y in sorted
  {
    var k := 0;
    while k < |sorted| && sorted[k] < x
      invariant 0 <= k <= |sorted| && forall i :: 0 <= i < k ==> sorted[i] < x
    {
      k := k + 1;
    }
    InsertedInOrder(sorted, x, k);
    r := sorted[..k] + [x] + sorted[k..];
  }

  lemma EmptyOrNot(s: set<int>)
    ensures s == {} || exists x :: x in s
  {
    if forall x :: x !in s { assert s == {}; }
  }

  method Sort(s: set<int>) returns (sorted: seq<int>)
    ensures IsSortedSet(sorted, s)
  {
    sorted := [];
    var rest := s;
    while rest != {}
      invariant rest <= s && Increasing(sorted)
      invariant forall x :: x in sorted <==> x in s && x !in rest
      decreases |rest|
    {
      EmptyOrNot(rest);
      var x :| x in rest;
      sorted := Insert(sorted, x);
      rest := rest - {x};
    }
  }
}
