/** Python's `sorted` of a set, for any total order. */
module Sorting {

  ghost predicate TotalOrder<T(!new)>(le: (T, T) -> bool) {
    && (forall x: T, y: T :: le(x, y) || le(y, x))
    && (forall x: T, y: T :: le(x, y) && le(y, x) ==> x == y)
    && (forall x: T, y: T, z: T :: le(x, y) && le(y, z) ==> le(x, z))
  }

  predicate Ascending<T(==)>(xs: seq<T>, le: (T, T) -> bool) {
    forall i, j :: 0 <= i < j < |xs| ==> xs[i] != xs[j] && le(xs[i], xs[j])
  }

  lemma {:induction false} HasLeast<T(!new)>(s: set<T>, le: (T, T) -> bool)
    requires TotalOrder(le) && s != {}
    ensures exists m :: m in s && forall x :: x in s ==> le(m, x)
    decreases |s|
  {
    var y :| y in s;
    var rest := s - {y};
    if rest != {} {
      HasLeast(rest, le);
      var m :| m in rest && forall x :: x in rest ==> le(m, x);
      var least := if le(y, m) then y else m;
      assert forall x :: x in s ==> le(least, x);
    } else {
      assert s == {y};
    }
  }

  function Least<T(==, !new)>(s: set<T>, le: (T, T) -> bool): (m: T)
    requires TotalOrder(le) && s != {}
    ensures m in s && forall x :: x in s ==> le(m, x)
  {
    HasLeast(s, le);
    var m :| m in s && forall x :: x in s ==> le(m, x);
    m
  }

  function Sorted<T(==, !new)>(s: set<T>, le: (T, T) -> bool): (xs: seq<T>)
    requires TotalOrder(le)
    ensures forall x :: x in xs <==> x in s
    decreases |s|
  {
    if s == {} then []
    else
      var m := Least(s, le);
      assert s == {m} + (s - {m});
      [m] + Sorted(s - {m}, le)
  }

  lemma {:induction false} SortedAscends<T(!new)>(s: set<T>, le: (T, T) -> bool)
    requires TotalOrder(le)
    ensures Ascending(Sorted(s, le), le) && |Sorted(s, le)| == |s|
    decreases |s|
  {
    if s != {} {
      var m := Least(s, le);
      SortedAscends(s - {m}, le);
      LeastFirst(m, Sorted(s - {m}, le), le);
    }
  }

  lemma LeastFirst<T(!new)>(m: T, rest: seq<T>, le: (T, T) -> bool)
    requires Ascending(rest, le) && m !in rest && forall x :: x in rest ==> le(m, x)
    ensures Ascending([m] + rest, le)
  {
    assert forall i :: 0 <= i < |rest| ==> rest[i] in rest;
  }
}
