/**
 Sets in order: the least element of a set, and its elements one after another from the least up.
 */
module Sorting {
  /** `less` puts any two elements in one order or the other. */
  ghost predicate TotalOrder<T(!new)>(less: (T, T) -> bool)
  {
    && (forall a :: !less(a, a))
    && (forall a, b {:trigger less(a, b)} :: a == b || less(a, b) || less(b, a))
    && (forall a, b, c {:trigger less(a, b), less(b, c)} :: less(a, b) && less(b, c) ==> less(a, c))
  }

  ghost predicate IsLeast<T>(least: T, all: set<T>, less: (T, T) -> bool)
  {
    least in all && forall x :: x in all ==> !less(x, least)
  }

  ghost predicate Rising<T>(list: seq<T>, less: (T, T) -> bool)
  {
    forall i, j :: 0 <= i < j < |list| ==> less(list[i], list[j])
  }

  lemma {:induction false} LeastExists<T(!new)>(all: set<T>, less: (T, T) -> bool) returns (least: T)
    requires TotalOrder(less) && all != {}
    ensures IsLeast(least, all, less) && forall x :: x in all && x != least ==> less(least, x)
    decreases |all|
  {
    var x :| x in all;
    if all == {x} {
      least := x;
    } else {
      var rest := all - {x};
      assert all == rest + {x};
      var other := LeastExists(rest, less);
      least := if less(x, other) then x else other;
    }
  }

  lemma {:induction false} LeastUnique<T(!new)>(all: set<T>, less: (T, T) -> bool)
    requires TotalOrder(less) && all != {}
    ensures exists least :: least in all && forall x :: x in all ==> !less(x, least)
    ensures forall a, b :: a in all && b in all && (forall x :: x in all ==> !less(x, a)) && (forall x :: x in all ==> !less(x, b)) ==> a == b
  {
    var least := LeastExists(all, less);
  }

  function Least<T(!new)>(all: set<T>, less: (T, T) -> bool): (least: T)
    requires TotalOrder(less) && all != {}
    ensures IsLeast(least, all, less) && forall x :: x in all && x != least ==> less(least, x)
  {
    LeastUnique(all, less);
    var least :| least in all && forall x :: x in all ==> !less(x, least);
    least
  }

  /** The elements of a set from the least up. */
  function Ascending<T(!new)>(all: set<T>, less: (T, T) -> bool): (r: seq<T>)
    requires TotalOrder(less)
    ensures |r| == |all| && Rising(r, less)
    ensures forall x :: x in r <==> x in all
    decreases |all|
  {
    if all == {} then []
    else
      var least := Least(all, less);
      var rest := Ascending(all - {least}, less);
      assert forall i :: 0 <= i < |rest| ==> rest[i] in rest;
      [least] + rest
  }

  /** A rising list is as long as the set of its elements is large. */
  lemma {:induction false} RisingSize<T(!new)>(list: seq<T>, all: set<T>, less: (T, T) -> bool)
    requires TotalOrder(less) && Rising(list, less) && forall x :: x in list <==> x in all
    ensures |all| == |list|
    decreases |list|
  {
    if list == [] {
      assert all == {};
    } else {
      var front, last := list[..|list| - 1], list[|list| - 1];
      assert list == front + [last];
      assert last !in front;
      assert all == (all - {last}) + {last};
      RisingSize(front, all - {last}, less);
    }
  }

  /** The elements before one in a rising list are those that are less. */
  lemma {:induction false} LessIsBefore<T(!new)>(list: seq<T>, less: (T, T) -> bool, i: nat, j: nat)
    requires TotalOrder(less) && Rising(list, less) && i < |list| && j < |list|
    ensures less(list[j], list[i]) <==> j < i
  {
    if j > i {
      assert less(list[i], list[j]);
    }
  }

  /** The elements of a set that come before one. */
  function Under<T>(all: set<T>, p: T, less: (T, T) -> bool): set<T>
  {
    set x | x in all && less(x, p)
  }

  /** As many elements come before one as its index in the order says. */
  lemma {:induction false} RankAt<T(!new)>(list: seq<T>, all: set<T>, less: (T, T) -> bool, i: nat)
    requires TotalOrder(less) && Rising(list, less) && (forall x :: x in list <==> x in all) && i < |list|
    ensures |Under(all, list[i], less)| == i
  {
    var part, before := list[..i], Under(all, list[i], less);
    forall x | x in part ensures x in before {
      var j :| 0 <= j < i && part[j] == x;
      LessIsBefore(list, less, i, j);
      assert list[j] in list;
    }
    forall x | x in before ensures x in part {
      assert x in list;
      var j :| 0 <= j < |list| && list[j] == x;
      LessIsBefore(list, less, i, j);
      assert part[j] == x;
    }
    RisingSize(part, before, less);
  }
}
